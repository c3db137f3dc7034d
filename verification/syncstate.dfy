/**
 What the sync keeps true between the header chain, the stored tables and the
 wallet: predicates on their values and the steps that keep them
 (internal/sync/sync.go, internal/sync/filters.go).
 */
module SyncState {
  import opened Basics
  import opened Transactions
  import opened Ledger
  import opened Wallets
  import opened Chains
  import opened Scans
  import opened Stores

  /** A serialised block filter. */
  type FilterData = seq<byte>

  /** The functions the sync relies on without knowing their inside: filter
      hashing, filter matching, the block a header hash commits to and the
      script an address names. */
  datatype Env = Env(
    filterHash: FilterData -> Hash,
    chained: (Hash, Hash) -> Hash,
    decodes: FilterData -> bool,
    hit: (FilterData, Hash, Script) -> bool,
    blockOf: Hash -> Block,
    scriptOf: Address -> Script)

  function BlocksOf(env: Env, headers: seq<Header>): (blocks: seq<Block>)
    ensures |blocks| == |headers|
  {
    seq(|headers|, i requires 0 <= i < |headers| => env.blockOf(headers[i].hash))
  }

  /** No two filters hash alike and no two links of a filter header chain do. */
  ghost predicate IdealFilterHash(env: Env) {
    && (forall a, b :: env.filterHash(a) == env.filterHash(b) ==> a == b)
    && (forall a, b, c, d :: env.chained(a, b) == env.chained(c, d) ==> a == c && b == d)
  }

  /** Header chains commit to valid blocks. */
  ghost predicate HonestBlocks(env: Env, params: Params, hashOf: WireHeader -> Hash) {
    forall headers :: Linked(params, hashOf, headers) ==> ValidBlocks(BlocksOf(env, headers))
  }

  // -------------------------------------------------------- memory and store

  function HeaderFromWire(hashOf: WireHeader -> Hash, w: WireHeader, height: int): StoredHeader {
    StoredHeader(height, hashOf(w), w.prevBlock, w.merkleRoot, w.version, w.timestamp, w.bits, w.nonce)
  }

  function WireFromHeader(h: StoredHeader): WireHeader {
    WireHeader(h.version, h.prevHash, h.merkleRoot, h.timestamp, h.bits, h.nonce)
  }

  function StoredOf(h: Header): StoredHeader {
    StoredHeader(h.height, h.hash, h.prevBlock, h.merkleRoot, h.version, h.timestamp, h.bits, h.nonce)
  }

  /** The header table holds the chain and nothing else. */
  ghost predicate HeadersMatch(table: map<int, StoredHeader>, headers: seq<Header>) {
    && (forall k :: k in table ==> 0 <= k < |headers|)
    && (forall k :: 0 <= k < |headers| ==> k in table && table[k] == StoredOf(headers[k]))
  }

  /** Every filter row lies on the chain with the hash of its block. */
  ghost predicate FiltersAgree(table: map<int, FilterRow>, headers: seq<Header>) {
    forall k :: k in table ==> 0 <= k < |headers| && table[k].height == k && table[k].blockHash == headers[k].hash
  }

  ghost predicate MatchesAgree(table: map<MatchKey, MatchRow>, headers: seq<Header>, env: Env) {
    forall k :: k in table ==>
      && 0 <= k.height < |headers| && table[k].height == k.height && table[k].address == k.address
      && table[k].blockHash == headers[k.height].hash && table[k].script == env.scriptOf(k.address)
  }

  ghost predicate TransactionsAgree(rows: seq<TxRow>, headers: seq<Header>, env: Env) {
    && DistinctRows(rows)
    && forall n :: 0 <= n < |rows| ==>
         0 <= rows[n].height < |headers| && rows[n].blockHash == headers[rows[n].height].hash
         && rows[n].tx in env.blockOf(rows[n].blockHash)
  }

  /** The transaction is in the block of a match and pays its address. */
  predicate NamedPayment(k: MatchKey, headers: seq<Header>, env: Env, tx: Tx) {
    0 <= k.height < |headers| && tx in env.blockOf(headers[k.height].hash) && Pays(tx, {env.scriptOf(k.address)})
  }

  /** Wherever a match is recorded for an address, the payments the block makes to
      it are stored. */
  ghost predicate MatchesProcessed(table: map<MatchKey, MatchRow>, headers: seq<Header>, env: Env, rows: seq<TxRow>) {
    forall k, tx :: k in table && NamedPayment(k, headers, env, tx) ==> HasTx(rows, tx)
  }

  /** The filter rows from the start on are one hash chain without a gap: each
      header commits to its filter and to the header before, the first to the anchor. */
  ghost predicate FilterChain(table: map<int, FilterRow>, from: int, end: int, anchor: Hash,
      original: map<int, FilterData>, env: Env) {
    && Contiguous(table.Keys, from, end)
    && (forall h :: from <= h < end ==> LinkHolds(table, from, h, anchor, original, env))
  }

  predicate LinkHolds(table: map<int, FilterRow>, from: int, h: int, anchor: Hash, original: map<int, FilterData>,
      env: Env) {
    && h in original && h in table
    && table[h].filterHeader == env.chained(env.filterHash(original[h]), LinkBefore(table, from, h, anchor))
  }

  function LinkBefore(table: map<int, FilterRow>, from: int, h: int, anchor: Hash): Hash {
    if h == from || h - 1 !in table then anchor else table[h - 1].filterHeader
  }

  // ----------------------------------------------------------- header steps

  lemma PutNewHeader(table: map<int, StoredHeader>, params: Params, hashOf: WireHeader -> Hash, headers: seq<Header>,
      h: Header)
    requires Sound(params, hashOf) && Linked(params, hashOf, headers + [h])
    requires HeadersMatch(table, headers)
    ensures HeadersMatch(PutHeader(table, StoredOf(h)), headers + [h])
  {
    var all := headers + [h];
    forall k | 0 <= k < |headers|
      ensures table[k].hash != h.hash
    {
      HashesDistinct(params, hashOf, all, k, |headers|);
    }
    assert h == all[|headers|];
  }

  /** Storing the headers added to the chain keeps table and chain the same. */
  lemma {:induction false} PutNewHeaders(table: map<int, StoredHeader>, params: Params, hashOf: WireHeader -> Hash,
      headers: seq<Header>, more: seq<Header>, rows: seq<StoredHeader>)
    requires Sound(params, hashOf) && Linked(params, hashOf, headers + more)
    requires HeadersMatch(table, headers)
    requires |rows| == |more| && forall i :: 0 <= i < |rows| ==> rows[i] == StoredOf(more[i])
    ensures HeadersMatch(PutHeaders(table, rows), headers + more)
  {
    hide Linked, HeadersMatch, Sound, PutHeader;
    if rows == [] {
      assert headers + more == headers;
    } else {
      var n := |rows| - 1;
      assert headers + more == (headers + more[..n]) + [more[n]];
      assert headers + more[..n] == (headers + more)[..|headers| + n];
      LinkedPrefix(params, hashOf, headers + more, |headers| + n);
      PutNewHeaders(table, params, hashOf, headers, more[..n], rows[..n]);
      PutNewHeader(PutHeaders(table, rows[..n]), params, hashOf, headers + more[..n], more[n]);
    }
  }

  lemma HeadersRewound(table: map<int, StoredHeader>, headers: seq<Header>, fork: int)
    requires HeadersMatch(table, headers) && -1 <= fork < |headers|
    ensures HeadersMatch(UpTo(table, fork), headers[..fork + 1])
  {
  }

  // ----------------------------------------------------- steps of the tables

  lemma AgreeExtends(filters: map<int, FilterRow>, matches: map<MatchKey, MatchRow>, rows: seq<TxRow>,
      headers: seq<Header>, more: seq<Header>, env: Env)
    requires FiltersAgree(filters, headers) && MatchesAgree(matches, headers, env) && TransactionsAgree(rows, headers, env)
    ensures FiltersAgree(filters, headers + more) && MatchesAgree(matches, headers + more, env)
    ensures TransactionsAgree(rows, headers + more, env)
  {
  }

  lemma ProcessedExtends(matches: map<MatchKey, MatchRow>, rows: seq<TxRow>, headers: seq<Header>, more: seq<Header>,
      env: Env)
    requires MatchesAgree(matches, headers, env) && MatchesProcessed(matches, headers, env, rows)
    ensures MatchesProcessed(matches, headers + more, env, rows)
  {
  }

  lemma FiltersRewound(filters: map<int, FilterRow>, headers: seq<Header>, fork: int)
    requires FiltersAgree(filters, headers) && -1 <= fork < |headers|
    ensures FiltersAgree(UpTo(filters, fork), headers[..fork + 1])
  {
  }

  lemma MatchesRewound(matches: map<MatchKey, MatchRow>, headers: seq<Header>, env: Env, fork: int)
    requires MatchesAgree(matches, headers, env) && -1 <= fork < |headers|
    ensures MatchesAgree(MatchesUpTo(matches, fork), headers[..fork + 1], env)
  {
  }

  lemma TransactionsRewound(rows: seq<TxRow>, headers: seq<Header>, env: Env, fork: int)
    requires TransactionsAgree(rows, headers, env) && -1 <= fork < |headers|
    ensures TransactionsAgree(KeepUpTo(rows, fork), headers[..fork + 1], env)
  {
    var kept := KeepUpTo(rows, fork);
    forall n | 0 <= n < |kept|
      ensures 0 <= kept[n].height < fork + 1 && kept[n].blockHash == headers[kept[n].height].hash
              && kept[n].tx in env.blockOf(kept[n].blockHash)
    {
      KeepMember(rows, fork, kept[n]);
      var k :| 0 <= k < |rows| && rows[k] == kept[n];
    }
    KeepMember(rows, fork, TxRow(Tx(0, [], []), 0, 0));
  }

  /** Under a valid chain a stored transaction of a block is stored at its height. */
  lemma StoredHeight(rows: seq<TxRow>, headers: seq<Header>, env: Env, n: nat, h: nat)
    requires ValidBlocks(BlocksOf(env, headers)) && TransactionsAgree(rows, headers, env)
    requires n < |rows| && h < |headers| && rows[n].tx in env.blockOf(headers[h].hash)
    ensures rows[n].height == h
  {
    var blocks := BlocksOf(env, headers);
    assert rows[n].tx in blocks[rows[n].height] && rows[n].tx in blocks[h];
    BlockIds(blocks, h);
    var i :| 0 <= i < |blocks[h]| && blocks[h][i] == rows[n].tx;
  }

  lemma ProcessedRewound(matches: map<MatchKey, MatchRow>, rows: seq<TxRow>, headers: seq<Header>, env: Env, fork: int)
    requires ValidBlocks(BlocksOf(env, headers)) && TransactionsAgree(rows, headers, env)
    requires MatchesProcessed(matches, headers, env, rows) && -1 <= fork < |headers|
    ensures MatchesProcessed(MatchesUpTo(matches, fork), headers[..fork + 1], env, KeepUpTo(rows, fork))
  {
    var kept, left := KeepUpTo(rows, fork), headers[..fork + 1];
    hide Pays, ValidBlocks;
    forall k, tx | k in MatchesUpTo(matches, fork) && NamedPayment(k, left, env, tx)
      ensures HasTx(kept, tx)
    {
      assert k in matches && NamedPayment(k, headers, env, tx);
      var n :| 0 <= n < |rows| && rows[n].tx == tx;
      StoredHeight(rows, headers, env, n, k.height);
      KeepMember(rows, fork, rows[n]);
      HasTxOf(kept, rows[n]);
    }
  }

  lemma ChainRewound(table: map<int, FilterRow>, from: int, end: int, anchor: Hash, original: map<int, FilterData>,
      env: Env, fork: int)
    requires FilterChain(table, from, end, anchor, original, env)
    ensures FilterChain(UpTo(table, fork), from, Min(end, Max(fork + 1, from)), anchor, original, env)
  {
    forall h | from <= h < Min(end, Max(fork + 1, from))
      ensures LinkHolds(UpTo(table, fork), from, h, anchor, original, env)
    {
      assert LinkHolds(table, from, h, anchor, original, env);
    }
  }

  // ------------------------------------------------------- processing a block

  lemma ProcessAgrees(rows: seq<TxRow>, headers: seq<Header>, env: Env, known: set<OutPoint>, mine: set<Script>,
      height: nat)
    requires ValidBlocks(BlocksOf(env, headers)) && TransactionsAgree(rows, headers, env) && height < |headers|
    ensures var hash := headers[height].hash;
            TransactionsAgree(Process(rows, env.blockOf(hash), known, mine, height, hash), headers, env)
  {
    var hash := headers[height].hash;
    var block := env.blockOf(hash);
    var after := Process(rows, block, known, mine, height, hash);
    BlockIds(BlocksOf(env, headers), height);
    assert BlocksOf(env, headers)[height] == block;
    forall n | 0 <= n < |after|
      ensures 0 <= after[n].height < |headers| && after[n].blockHash == headers[after[n].height].hash
              && after[n].tx in env.blockOf(after[n].blockHash)
    {
      ProcessMember(rows, block, known, mine, height, hash, after[n]);
    }
    ProcessMember(rows, block, known, mine, height, hash, TxRow(Tx(0, [], []), 0, 0));
  }

  /** A transaction stored before a block was processed is stored after. */
  lemma ProcessKeeps(rows: seq<TxRow>, headers: seq<Header>, env: Env, known: set<OutPoint>, mine: set<Script>,
      height: nat, tx: Tx)
    requires ValidBlocks(BlocksOf(env, headers)) && TransactionsAgree(rows, headers, env) && height < |headers|
    requires HasTx(rows, tx)
    ensures HasTx(Process(rows, env.blockOf(headers[height].hash), known, mine, height, headers[height].hash), tx)
  {
    var hash := headers[height].hash;
    var blocks := BlocksOf(env, headers);
    var block := env.blockOf(hash);
    var after := Process(rows, block, known, mine, height, hash);
    BlockIds(blocks, height);
    assert blocks[height] == block;
    var n :| 0 <= n < |rows| && rows[n].tx == tx;
    assert tx in blocks[rows[n].height];
    ProcessMember(rows, block, known, mine, height, hash, rows[n]);
    if rows[n] in after {
      HasTxOf(after, rows[n]);
    } else {
      var i :| 0 <= i < |block| && Relevant(block[i], known, mine) && block[i].id == tx.id;
      assert rows[n].height == height;
      SameId(block, i, tx);
      ProcessMember(rows, block, known, mine, height, hash, TxRow(tx, height, hash));
      HasTxOf(after, TxRow(tx, height, hash));
    }
  }

  lemma SameId(block: Block, i: nat, tx: Tx)
    requires i < |block| && tx in block && block[i].id == tx.id
    requires forall i, j :: 0 <= i < j < |block| ==> block[i].id != block[j].id
    ensures block[i] == tx
  {
    var k :| 0 <= k < |block| && block[k] == tx;
  }

  lemma ProcessedKept(matches: map<MatchKey, MatchRow>, rows: seq<TxRow>, headers: seq<Header>, env: Env,
      known: set<OutPoint>, mine: set<Script>, height: nat)
    requires ValidBlocks(BlocksOf(env, headers)) && TransactionsAgree(rows, headers, env) && height < |headers|
    requires MatchesProcessed(matches, headers, env, rows)
    ensures var hash := headers[height].hash;
            MatchesProcessed(matches, headers, env, Process(rows, env.blockOf(hash), known, mine, height, hash))
  {
    var hash := headers[height].hash;
    var after := Process(rows, env.blockOf(hash), known, mine, height, hash);
    hide Process, ValidBlocks, TransactionsAgree, NamedPayment;
    forall k, tx | k in matches && NamedPayment(k, headers, env, tx)
      ensures HasTx(after, tx)
    {
      ProcessKeeps(rows, headers, env, known, mine, height, tx);
    }
  }

  /** After a block was processed every payment in it to a watched script is stored. */
  lemma ProcessStoresPayments(rows: seq<TxRow>, headers: seq<Header>, env: Env, known: set<OutPoint>,
      mine: set<Script>, height: nat, tx: Tx)
    requires ValidBlocks(BlocksOf(env, headers)) && TransactionsAgree(rows, headers, env) && height < |headers|
    requires tx in env.blockOf(headers[height].hash) && Pays(tx, mine)
    ensures HasTx(Process(rows, env.blockOf(headers[height].hash), known, mine, height, headers[height].hash), tx)
  {
    var hash := headers[height].hash;
    var block := env.blockOf(hash);
    BlockIds(BlocksOf(env, headers), height);
    assert BlocksOf(env, headers)[height] == block;
    ProcessMember(rows, block, known, mine, height, hash, TxRow(tx, height, hash));
    HasTxOf(Process(rows, block, known, mine, height, hash), TxRow(tx, height, hash));
  }

  // -------------------------------------------------- the filter header chain

  /** Storing the next filters of the chain extends it. */
  lemma ChainExtends(table: map<int, FilterRow>, from: int, end: int, anchor: Hash, original: map<int, FilterData>,
      env: Env, row: FilterRow, data: FilterData)
    requires FilterChain(table, from, end, anchor, original, env)
    requires row.height == end
    requires row.filterHeader == env.chained(env.filterHash(data), LinkBefore(table, from, end, anchor))
    ensures FilterChain(table[end := row], from, end + 1, anchor, original[end := data], env)
  {
    var after, filters := table[end := row], original[end := data];
    forall h | from <= h < end + 1
      ensures LinkHolds(after, from, h, anchor, filters, env)
    {
      assert h < end ==> LinkHolds(table, from, h, anchor, original, env);
    }
  }

  /** A filter and a link giving a stored header are the ones it was made from. */
  lemma LinkPinned(table: map<int, FilterRow>, from: int, end: int, anchor: Hash, original: map<int, FilterData>,
      env: Env, h: int, prev: Hash, data: FilterData)
    requires IdealFilterHash(env) && FilterChain(table, from, end, anchor, original, env)
    requires from <= h < end && h in table
    requires table[h].filterHeader == env.chained(env.filterHash(data), prev)
    ensures h in original && data == original[h] && prev == LinkBefore(table, from, h, anchor)
    ensures table[h].filterHeader == LinkBefore(table, from, h + 1, anchor)
  {
    assert LinkHolds(table, from, h, anchor, original, env);
  }

  /** Filters chained from a link that reproduce the stored headers are the
      filters the stored chain was built from, and so is the link. */
  lemma {:induction false} ChainPinsFilters(table: map<int, FilterRow>, from: int, end: int, anchor: Hash, original: map<int, FilterData>, env: Env,
                                            start: int, prev: Hash, filters: seq<FilterData>)
    requires IdealFilterHash(env) && FilterChain(table, from, end, anchor, original, env)
    requires from <= start && start + |filters| <= end
    requires Reproduces(table, env, start, prev, filters)
    ensures filters != [] ==> prev == LinkBefore(table, from, start, anchor)
    ensures forall h :: start <= h < start + |filters| ==> h in original && filters[h - start] == original[h]
    decreases |filters|
  {
    if filters != [] {
      hide FilterChain, LinkBefore, LinkHolds, IdealFilterHash;
      var next := env.chained(env.filterHash(filters[0]), prev);
      LinkPinned(table, from, end, anchor, original, env, start, prev, filters[0]);
      ChainPinsFilters(table, from, end, anchor, original, env, start + 1, next, filters[1..]);
    }
  }

  /** The filters, chained from the link, give the stored headers one after another. */
  predicate Reproduces(table: map<int, FilterRow>, env: Env, start: int, prev: Hash, filters: seq<FilterData>)
    decreases |filters|
  {
    filters == []
    || (var next := env.chained(env.filterHash(filters[0]), prev);
        start in table && table[start].filterHeader == next && Reproduces(table, env, start + 1, next, filters[1..]))
  }

  // ------------------------------------------------------------ filter matches

  /** The watched scripts a filter matches. */
  function Matched(env: Env, scripts: seq<WatchScript>, data: FilterData, hash: Hash): seq<WatchScript> {
    if scripts == [] then []
    else
      var n := |scripts| - 1;
      Matched(env, scripts[..n], data, hash) + if env.hit(data, hash, scripts[n].script) then [scripts[n]] else []
  }

  lemma {:induction false} MatchedMember(env: Env, scripts: seq<WatchScript>, data: FilterData, hash: Hash,
      w: WatchScript)
    ensures w in Matched(env, scripts, data, hash) <==> w in scripts && env.hit(data, hash, w.script)
  {
    if scripts != [] {
      var n := |scripts| - 1;
      MatchedMember(env, scripts[..n], data, hash, w);
      assert scripts == scripts[..n] + [scripts[n]];
    }
  }

  /** The match table after the matches of a block were saved. */
  function PutMatches(table: map<MatchKey, MatchRow>, matched: seq<WatchScript>, height: int, hash: Hash): map<MatchKey, MatchRow> {
    if matched == [] then table
    else
      var w := matched[|matched| - 1];
      var before := PutMatches(table, matched[..|matched| - 1], height, hash);
      var key := MatchKey(height, w.address);
      if key in before then before else before[key := MatchRow(height, hash, w.address, w.script)]
  }

  lemma {:induction false} PutMatchesMember(table: map<MatchKey, MatchRow>, matched: seq<WatchScript>, height: int,
      hash: Hash, k: MatchKey)
    ensures k in PutMatches(table, matched, height, hash) <==>
              k in table || exists n :: 0 <= n < |matched| && k == MatchKey(height, matched[n].address)
    ensures k in table ==> PutMatches(table, matched, height, hash)[k] == table[k]
  {
    if matched != [] {
      var last := |matched| - 1;
      PutMatchesMember(table, matched[..last], height, hash, k);
      if n :| 0 <= n < last && k == MatchKey(height, matched[n].address) {
        assert matched[..last][n] == matched[n];
      }
    }
  }

  lemma {:induction false} PutMatchesAgree(table: map<MatchKey, MatchRow>, matched: seq<WatchScript>,
      headers: seq<Header>, env: Env, height: nat)
    requires MatchesAgree(table, headers, env) && height < |headers|
    requires forall n :: 0 <= n < |matched| ==> matched[n].script == env.scriptOf(matched[n].address)
    ensures MatchesAgree(PutMatches(table, matched, height, headers[height].hash), headers, env)
  {
    if matched != [] {
      PutMatchesAgree(table, matched[..|matched| - 1], headers, env, height);
    }
  }

  lemma PutMatchesProcessed(table: map<MatchKey, MatchRow>, matched: seq<WatchScript>, headers: seq<Header>, env: Env,
      rows: seq<TxRow>, height: nat)
    requires MatchesProcessed(table, headers, env, rows) && height < |headers|
    requires forall n :: 0 <= n < |matched| ==> matched[n].script == env.scriptOf(matched[n].address)
    requires forall n, tx :: 0 <= n < |matched| && tx in env.blockOf(headers[height].hash) && Pays(tx, {matched[n].script}) ==> HasTx(rows, tx)
    ensures MatchesProcessed(PutMatches(table, matched, height, headers[height].hash), headers, env, rows)
  {
    var after := PutMatches(table, matched, height, headers[height].hash);
    hide Pays;
    forall k, tx | k in after && NamedPayment(k, headers, env, tx)
      ensures HasTx(rows, tx)
    {
      PutMatchesMember(table, matched, height, headers[height].hash, k);
      if k !in table {
        var n :| 0 <= n < |matched| && k == MatchKey(height, matched[n].address);
        assert Pays(tx, {matched[n].script});
      }
    }
  }

  lemma PaysMore(tx: Tx, script: Script, mine: set<Script>)
    requires script in mine && Pays(tx, {script})
    ensures Pays(tx, mine)
  {
    var i :| 0 <= i < |tx.outs| && tx.outs[i].script in {script};
    assert tx.outs[i].script in mine;
  }

  // ----------------------------------------------------- scanning up the chain

  /** The filter of a block misses no watched script the block concerns. */
  ghost predicate Truthful(env: Env, headers: seq<Header>, mine: set<Script>, h: nat, data: FilterData)
    requires h < |headers|
  {
    forall s, tx :: s in mine && tx in env.blockOf(headers[h].hash) && MustStore(BlocksOf(env, headers), h, tx, {s}) ==>
      env.hit(data, headers[h].hash, s)
  }

  lemma BlocksPrefix(env: Env, headers: seq<Header>, h: nat)
    requires h <= |headers|
    ensures BlocksOf(env, headers[..h]) == BlocksOf(env, headers)[..h]
  {
  }

  /** Accepting a truthful filter covers its block too. */
  lemma AcceptCovers(env: Env, headers: seq<Header>, from: nat, h: nat, rows: seq<TxRow>, scripts: seq<WatchScript>, index: map<Script, nat>,
                     known: set<OutPoint>, data: FilterData, withBlock: bool)
    requires ValidBlocks(BlocksOf(env, headers)) && from <= h < |headers| && IndexOk(scripts, index)
    requires Covers(BlocksOf(env, headers[..h]), from, rows, index.Keys)
    requires CoinsBelow(BlocksOf(env, headers), h, index.Keys).Keys <= known
    requires Truthful(env, headers, index.Keys, h, data)
    ensures var hash := headers[h].hash;
            var after := if Matched(env, scripts, data, hash) != [] || withBlock then Process(rows, env.blockOf(hash), known, index.Keys, h, hash) else rows;
            Covers(BlocksOf(env, headers[..h + 1]), from, after, index.Keys)
  {
    var hash, mine := headers[h].hash, index.Keys;
    var all := BlocksOf(env, headers);
    var blocks := BlocksOf(env, headers[..h + 1]);
    hide Process, MustStore, Covers, CoversBut, Matched;
    BlocksPrefix(env, headers, h);
    BlocksPrefix(env, headers, h + 1);
    ValidPrefix(all, h + 1);
    assert blocks[..h] == all[..h] && blocks[h] == env.blockOf(hash);
    CoversBelow(blocks, from, rows, mine);
    if Matched(env, scripts, data, hash) != [] || withBlock {
      ProcessCovers(blocks, from, rows, mine, h, known, hash);
    } else {
      forall tx | tx in blocks[h]
        ensures !MustStore(blocks, h, tx, mine)
      {
        UnmatchedHere(env, headers, h, scripts, index, data, tx);
        MustStorePrefix(all, h, h + 1, tx, mine);
      }
      SkipCovers(blocks, from, rows, mine, h);
    }
  }

  lemma UnmatchedHere(env: Env, headers: seq<Header>, h: nat, scripts: seq<WatchScript>, index: map<Script, nat>,
      data: FilterData, tx: Tx)
    requires ValidBlocks(BlocksOf(env, headers)) && h < |headers| && IndexOk(scripts, index)
    requires Truthful(env, headers, index.Keys, h, data)
    requires Matched(env, scripts, data, headers[h].hash) == []
    requires tx in env.blockOf(headers[h].hash)
    ensures !MustStore(BlocksOf(env, headers), h, tx, index.Keys)
  {
    if MustStore(BlocksOf(env, headers), h, tx, index.Keys) {
      var s := MustStoreFor(BlocksOf(env, headers), h, tx, index.Keys);
      MatchedMember(env, scripts, data, headers[h].hash, scripts[index[s]]);
    }
  }

  lemma {:induction false} CoinKey(txs: seq<Tx>, mine: set<Script>, n: nat, op: OutPoint)
    requires n < |txs| && op in CoinsOf(txs[n], |txs[n].outs|, mine)
    ensures op in CoinMap(txs, mine)
  {
    if n < |txs| - 1 {
      CoinKey(txs[..|txs| - 1], mine, n, op);
    }
  }

  /** The outpoints known from the tables include every coin of the scanned blocks. */
  lemma KnownCoins(blocks: seq<Block>, from: nat, rows: seq<TxRow>, listed: seq<TxRow>, pending: seq<Tx>,
      mine: set<Script>)
    requires ValidBlocks(blocks) && Quiet(blocks, from, mine) && Covers(blocks, from, rows, mine)
    requires multiset(listed) == multiset(rows)
    ensures CoinMap(AllTxs(blocks), mine).Keys <= CoinMap(TxsOf(listed) + pending, mine).Keys
  {
    StoredCoins(blocks, from, rows, mine);
    RowsDistinct(blocks, from, rows, mine);
    hide ValidBlocks, Quiet, Covers, CoinMap;
    forall op | op in CoinMap(AllTxs(blocks), mine)
      ensures op in CoinMap(TxsOf(listed) + pending, mine)
    {
      CoinListed(rows, listed, pending, mine, op);
    }
  }

  lemma CoinListed(rows: seq<TxRow>, listed: seq<TxRow>, pending: seq<Tx>, mine: set<Script>, op: OutPoint)
    requires DistinctIds(TxsOf(rows)) && op in CoinMap(TxsOf(rows), mine)
    requires multiset(listed) == multiset(rows)
    ensures op in CoinMap(TxsOf(listed) + pending, mine)
  {
    var tx := CoinMaker(TxsOf(rows), mine, op);
    var n :| 0 <= n < |rows| && TxsOf(rows)[n] == tx;
    assert rows[n] in multiset(listed);
    var m :| 0 <= m < |listed| && listed[m] == rows[n];
    var all := TxsOf(listed) + pending;
    assert all[m] == tx;
    CoinKey(all, mine, m, op);
  }

  // ------------------------------------------------------ storing filter rows

  /** The rows of consecutive accepted filters, each chained to the one before. */
  ghost predicate RowsChained(rows: seq<FilterRow>, datas: seq<FilterData>, headers: seq<Header>, start: int,
      prev: Hash, env: Env) {
    && |datas| == |rows| && 0 <= start && (rows != [] ==> start + |rows| <= |headers|)
    && forall i :: 0 <= i < |rows| ==>
         rows[i] == FilterRow(start + i, headers[start + i].hash, env.chained(env.filterHash(datas[i]), LinkOfRow(rows, i, prev)))
  }

  function LinkOfRow(rows: seq<FilterRow>, i: nat, prev: Hash): Hash
    requires i <= |rows|
  {
    if i == 0 then prev else rows[i - 1].filterHeader
  }

  /** The filters stored from the start on, by height. */
  function PutDatas(original: map<int, FilterData>, start: int, datas: seq<FilterData>): map<int, FilterData> {
    if datas == [] then original
    else PutDatas(original, start, datas[..|datas| - 1])[start + |datas| - 1 := datas[|datas| - 1]]
  }

  lemma {:induction false} PutDatasAt(original: map<int, FilterData>, start: int, datas: seq<FilterData>, h: int)
    ensures start <= h < start + |datas| ==> h in PutDatas(original, start, datas) && PutDatas(original, start, datas)[h] == datas[h - start]
    ensures !(start <= h < start + |datas|) ==>
              (h in PutDatas(original, start, datas) <==> h in original) && (h in original ==> PutDatas(original, start, datas)[h] == original[h])
  {
    if datas != [] {
      PutDatasAt(original, start, datas[..|datas| - 1], h);
    }
  }

  /** Storing the rows of the next filters extends the stored chain by them. */
  lemma {:induction false} RowsExtend(table: map<int, FilterRow>, headers: seq<Header>, from: int, end: int, anchor: Hash, original: map<int, FilterData>, env: Env,
                                      rows: seq<FilterRow>, datas: seq<FilterData>)
    requires FilterChain(table, from, end, anchor, original, env) && FiltersAgree(table, headers)
    requires RowsChained(rows, datas, headers, end, LinkBefore(table, from, end, anchor), env)
    ensures FilterChain(PutFilters(table, rows), from, end + |rows|, anchor, PutDatas(original, end, datas), env)
    ensures FiltersAgree(PutFilters(table, rows), headers)
    ensures LinkBefore(PutFilters(table, rows), from, end + |rows|, anchor) == LinkOfRow(rows, |rows|, LinkBefore(table, from, end, anchor))
  {
    hide FilterChain, LinkHolds, LinkBefore, RowsChained, FiltersAgree;
    RowsMatchDatas(rows, datas, headers, end, LinkBefore(table, from, end, anchor), env);
    if rows != [] {
      var n := |rows| - 1;
      RowsChainedLess(rows, datas, headers, end, LinkBefore(table, from, end, anchor), env);
      ChainReaches(table, from, end, anchor, original, env);
      RowsExtend(table, headers, from, end, anchor, original, env, rows[..n], datas[..n]);
      ChainExtends(PutFilters(table, rows[..n]), from, end + n, anchor, PutDatas(original, end, datas[..n]), env,
        rows[n], datas[n]);
      FilterAgrees(PutFilters(table, rows[..n]), headers, rows[n]);
      LinkAfter(PutFilters(table, rows[..n]), from, anchor, rows[n]);
    }
  }

  lemma RowsMatchDatas(rows: seq<FilterRow>, datas: seq<FilterData>, headers: seq<Header>, start: int, prev: Hash,
      env: Env)
    requires RowsChained(rows, datas, headers, start, prev, env)
    ensures |datas| == |rows| && 0 <= start
  {
  }

  lemma RowsChainedLess(rows: seq<FilterRow>, datas: seq<FilterData>, headers: seq<Header>, start: int, prev: Hash,
      env: Env)
    requires RowsChained(rows, datas, headers, start, prev, env) && rows != []
    ensures RowsChained(rows[..|rows| - 1], datas[..|rows| - 1], headers, start, prev, env)
    ensures var n := |rows| - 1;
            && LinkOfRow(rows, n, prev) == LinkOfRow(rows[..n], n, prev)
            && 0 <= start + n < |headers|
            && rows[n] == FilterRow(start + n, headers[start + n].hash, env.chained(env.filterHash(datas[n]), LinkOfRow(rows, n, prev)))
  {
    var n := |rows| - 1;
    forall i | 0 <= i < n
      ensures LinkOfRow(rows[..n], i, prev) == LinkOfRow(rows, i, prev)
    {
    }
  }

  lemma FilterAgrees(table: map<int, FilterRow>, headers: seq<Header>, row: FilterRow)
    requires FiltersAgree(table, headers) && 0 <= row.height < |headers| && row.blockHash == headers[row.height].hash
    ensures FiltersAgree(table[row.height := row], headers)
  {
  }

  lemma LinkAfter(table: map<int, FilterRow>, from: int, anchor: Hash, row: FilterRow)
    requires from <= row.height
    ensures LinkBefore(table[row.height := row], from, row.height + 1, anchor) == row.filterHeader
  {
  }

  lemma ChainReaches(table: map<int, FilterRow>, from: int, end: int, anchor: Hash, original: map<int, FilterData>,
      env: Env)
    requires FilterChain(table, from, end, anchor, original, env)
    ensures from <= end
    ensures end > from ==> end - 1 in table
  {
  }

  /** Before its first filter is stored the chain may start from any anchor. */
  lemma ChainRestarts(table: map<int, FilterRow>, from: int, anchor: Hash, other: Hash,
      original: map<int, FilterData>, env: Env)
    requires FilterChain(table, from, from, anchor, original, env)
    ensures FilterChain(table, from, from, other, original, env)
    ensures LinkBefore(table, from, from, other) == other
  {
  }

  lemma RowsChainedMore(rows: seq<FilterRow>, datas: seq<FilterData>, headers: seq<Header>, start: int, prev: Hash,
      env: Env, row: FilterRow, data: FilterData)
    requires RowsChained(rows, datas, headers, start, prev, env) && start + |rows| < |headers|
    requires row == FilterRow(start + |rows|, headers[start + |rows|].hash, env.chained(env.filterHash(data), LinkOfRow(rows, |rows|, prev)))
    ensures RowsChained(rows + [row], datas + [data], headers, start, prev, env)
    ensures LinkOfRow(rows + [row], |rows| + 1, prev) == row.filterHeader
  {
    var all := rows + [row];
    forall i | 0 <= i < |all|
      ensures all[i] == FilterRow(start + i, headers[start + i].hash, env.chained(env.filterHash((datas + [data])[i]), LinkOfRow(all, i, prev)))
    {
      assert LinkOfRow(all, i, prev) == LinkOfRow(rows, i, prev);
    }
  }
}
