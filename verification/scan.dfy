/**
 Scanning the chain block by block against the ledger of all its unspent
 outputs (internal/sync/wallet.go, internal/sync/filters.go).
 */
module Scans {
  import opened Basics
  import opened Transactions
  import opened Ledger
  import opened Wallets

  // ------------------------------------------------------- the plain ledger

  function AllTxs(blocks: seq<Block>): seq<Tx> {
    if blocks == [] then [] else AllTxs(blocks[..|blocks| - 1]) + blocks[|blocks| - 1]
  }

  /** No transaction spends an output of itself or of a later one. */
  ghost predicate Causal(txs: seq<Tx>) {
    forall i, j, op :: 0 <= i <= j < |txs| && op in txs[i].ins ==> op.hash != txs[j].id
  }

  /** What hashing and block validity give of a chain of blocks. */
  ghost predicate ValidBlocks(blocks: seq<Block>) {
    DistinctIds(AllTxs(blocks)) && Causal(AllTxs(blocks))
  }

  function OutputsOf(tx: Tx, n: nat): (m: map<OutPoint, TxOut>)
    requires n <= |tx.outs|
    ensures forall op :: op in m <==> op.hash == tx.id && op.index < n
    ensures forall op :: op in m ==> m[op] == tx.outs[op.index]
  {
    if n == 0 then map[] else OutputsOf(tx, n - 1)[OutPoint(tx.id, n - 1) := tx.outs[n - 1]]
  }

  /** Every unspent output, transaction after transaction. */
  function Utxo(txs: seq<Tx>): map<OutPoint, TxOut> {
    if txs == [] then map[]
    else
      var tx := txs[|txs| - 1];
      (Utxo(txs[..|txs| - 1]) - (set op | op in tx.ins)) + OutputsOf(tx, |tx.outs|)
  }

  ghost function Watched(utxo: map<OutPoint, TxOut>, mine: set<Script>): map<OutPoint, int> {
    map op | op in utxo && utxo[op].script in mine :: utxo[op].value
  }

  /** The ledger's watched part is what the wallet's formula gives over all transactions. */
  lemma {:induction false} UtxoIsUnspent(txs: seq<Tx>, mine: set<Script>)
    requires DistinctIds(txs) && Causal(txs)
    ensures Watched(Utxo(txs), mine) == Unspent(txs, mine)
  {
    hide Utxo, Unspent, Watched, AllIns, Causal, DistinctIds;
    if txs == [] {
      NoUtxo(mine);
    } else {
      var n := |txs| - 1;
      FewerCausal(txs);
      UtxoIsUnspent(txs[..n], mine);
      assert txs == txs[..n] + [txs[n]];
      UtxoStep(txs[..n], txs[n], mine);
    }
  }

  lemma NoUtxo(mine: set<Script>)
    ensures Watched(Utxo([]), mine) == Unspent([], mine)
  {
  }

  lemma FewerCausal(txs: seq<Tx>)
    requires txs != [] && DistinctIds(txs) && Causal(txs)
    ensures DistinctIds(txs[..|txs| - 1]) && Causal(txs[..|txs| - 1])
  {
  }

  lemma UtxoStep(txs: seq<Tx>, tx: Tx, mine: set<Script>)
    requires DistinctIds(txs + [tx]) && Causal(txs + [tx])
    requires Watched(Utxo(txs), mine) == Unspent(txs, mine)
    ensures Watched(Utxo(txs + [tx]), mine) == Unspent(txs + [tx], mine)
  {
    hide Utxo, CoinMap, DistinctIds, Causal, Watched, Spent, OutputsOf, CoinsOf;
    var ins := set op | op in tx.ins;
    NewOutputs(txs, tx, mine);
    UnspentKept(txs, tx, mine);
    RemoveThenAdd(CoinMap(txs, mine), CoinsOf(tx, |tx.outs|, mine), Spent(txs), ins);
    WatchedStep(Utxo(txs), tx, ins, mine);
  }

  lemma UnspentKept(txs: seq<Tx>, tx: Tx, mine: set<Script>)
    requires CoinsOf(tx, |tx.outs|, mine).Keys !! Spent(txs + [tx])
    requires Spent(txs + [tx]) == Spent(txs) + set op | op in tx.ins
    ensures CoinsOf(tx, |tx.outs|, mine).Keys !! (Spent(txs) + set op | op in tx.ins)
  {
  }

  lemma RemoveThenAdd(coins: map<OutPoint, int>, made: map<OutPoint, int>, spent: set<OutPoint>, ins: set<OutPoint>)
    requires made.Keys !! (spent + ins)
    ensures (coins + made) - (spent + ins) == ((coins - spent) - ins) + made
  {
  }

  lemma WatchedStep(utxo: map<OutPoint, TxOut>, tx: Tx, ins: set<OutPoint>, mine: set<Script>)
    requires forall op :: op in Watched(utxo, mine) ==> op !in OutputsOf(tx, |tx.outs|)
    ensures Watched((utxo - ins) + OutputsOf(tx, |tx.outs|), mine) == (Watched(utxo, mine) - ins) + CoinsOf(tx, |tx.outs|, mine)
  {
    hide Watched, OutputsOf, CoinsOf;
    WatchedWithout(utxo, ins, mine);
    WatchedUnion(utxo - ins, OutputsOf(tx, |tx.outs|), mine);
    WatchedOutputs(tx, mine);
  }

  lemma WatchedWithout(utxo: map<OutPoint, TxOut>, ins: set<OutPoint>, mine: set<Script>)
    ensures Watched(utxo - ins, mine) == Watched(utxo, mine) - ins
  {
  }

  lemma WatchedUnion(utxo: map<OutPoint, TxOut>, made: map<OutPoint, TxOut>, mine: set<Script>)
    requires forall op :: op in Watched(utxo, mine) ==> op !in made
    ensures Watched(utxo + made, mine) == Watched(utxo, mine) + Watched(made, mine)
  {
  }

  lemma WatchedOutputs(tx: Tx, mine: set<Script>)
    ensures Watched(OutputsOf(tx, |tx.outs|), mine) == CoinsOf(tx, |tx.outs|, mine)
  {
    hide OutputsOf, CoinsOf;
  }

  /** The outputs of a new transaction are neither spent nor known yet. */
  lemma NewOutputs(txs: seq<Tx>, tx: Tx, mine: set<Script>)
    requires DistinctIds(txs + [tx]) && Causal(txs + [tx])
    ensures Utxo(txs + [tx]) == (Utxo(txs) - (set op | op in tx.ins)) + OutputsOf(tx, |tx.outs|)
    ensures CoinMap(txs + [tx], mine) == CoinMap(txs, mine) + CoinsOf(tx, |tx.outs|, mine)
    ensures Spent(txs + [tx]) == Spent(txs) + set op | op in tx.ins
    ensures CoinsOf(tx, |tx.outs|, mine).Keys !! Spent(txs + [tx])
    ensures forall op :: op in Unspent(txs, mine) ==> op !in OutputsOf(tx, |tx.outs|)
  {
    assert (txs + [tx])[..|txs|] == txs;
    NotYetSpent(txs, tx, mine);
    NotYetKnown(txs, tx, mine);
  }

  lemma NotYetSpent(txs: seq<Tx>, tx: Tx, mine: set<Script>)
    requires DistinctIds(txs + [tx]) && Causal(txs + [tx])
    ensures CoinsOf(tx, |tx.outs|, mine).Keys !! Spent(txs + [tx])
  {
    hide AllIns;
    var all := txs + [tx];
    forall op | op in CoinsOf(tx, |tx.outs|, mine)
      ensures op !in Spent(all)
    {
      AllInsMember(all, op);
      assert all[|txs|] == tx;
    }
  }

  lemma NotYetKnown(txs: seq<Tx>, tx: Tx, mine: set<Script>)
    requires DistinctIds(txs + [tx])
    ensures forall op :: op in Unspent(txs, mine) ==> op !in OutputsOf(tx, |tx.outs|)
  {
    hide AllIns, CoinMap;
    var all := txs + [tx];
    assert forall i :: 0 <= i < |txs| ==> all[i] == txs[i];
    forall op | op in Unspent(txs, mine)
      ensures op !in OutputsOf(tx, |tx.outs|)
    {
      CoinMapMember(txs, mine, op);
      var k :| 0 <= k < |txs| && txs[k].id == op.hash;
      assert all[k].id != all[|txs|].id;
    }
  }

  // ------------------------------------------------------------- the scanner

  ghost predicate HasTx(rows: seq<TxRow>, tx: Tx) {
    exists n :: 0 <= n < |rows| && rows[n].tx == tx
  }

  /** The coins the blocks below a height make. */
  function CoinsBelow(blocks: seq<Block>, h: nat, mine: set<Script>): map<OutPoint, int>
    requires h <= |blocks|
  {
    CoinMap(AllTxs(blocks[..h]), mine)
  }

  predicate Spends(tx: Tx, coins: set<OutPoint>) {
    exists i :: 0 <= i < |tx.ins| && tx.ins[i] in coins
  }

  /** The transaction pays the wallet or spends a coin of an earlier block. */
  predicate MustStore(blocks: seq<Block>, h: nat, tx: Tx, mine: set<Script>)
    requires h <= |blocks|
  {
    Pays(tx, mine) || Spends(tx, CoinsBelow(blocks, h, mine).Keys)
  }

  /** The stored rows lie in the scanned blocks and miss none of the
      transactions that can be told from the blocks below their own. */
  ghost predicate Covers(blocks: seq<Block>, from: nat, rows: seq<TxRow>, mine: set<Script>) {
    && (forall n :: 0 <= n < |rows| ==> from <= rows[n].height < |blocks| && rows[n].tx in blocks[rows[n].height])
    && (forall i, j :: 0 <= i < j < |rows| ==> rows[i].tx.id != rows[j].tx.id)
    && (forall h, tx :: from <= h < |blocks| && tx in blocks[h] && MustStore(blocks, h, tx, mine) ==> HasTx(rows, tx))
  }

  /** No block below the height pays the wallet: it was made later. */
  ghost predicate Quiet(blocks: seq<Block>, from: nat, mine: set<Script>) {
    forall h, tx :: 0 <= h < |blocks| && h < from && tx in blocks[h] ==> !Pays(tx, mine)
  }

  lemma {:induction false} AllTxsMember(blocks: seq<Block>, tx: Tx)
    ensures tx in AllTxs(blocks) <==> exists h :: 0 <= h < |blocks| && tx in blocks[h]
  {
    if blocks != [] {
      var n := |blocks| - 1;
      AllTxsMember(blocks[..n], tx);
      if tx in AllTxs(blocks[..n]) {
        var h :| 0 <= h < n && tx in blocks[..n][h];
        assert tx in blocks[h];
      }
      if h :| 0 <= h < |blocks| && tx in blocks[h] {
        assert h < n ==> tx in blocks[..n][h];
      }
    }
  }

  lemma {:induction false} AllTxsPrefix(blocks: seq<Block>, h: nat)
    requires h <= |blocks|
    ensures AllTxs(blocks[..h]) <= AllTxs(blocks)
    decreases |blocks| - h
  {
    if h < |blocks| {
      assert blocks[..h + 1][..h] == blocks[..h];
      AllTxsPrefix(blocks, h + 1);
    } else {
      assert blocks[..h] == blocks;
    }
  }

  lemma ValidPrefix(blocks: seq<Block>, h: nat)
    requires ValidBlocks(blocks) && h <= |blocks|
    ensures ValidBlocks(blocks[..h])
  {
    AllTxsPrefix(blocks, h);
    var a, b := AllTxs(blocks[..h]), AllTxs(blocks);
    assert forall i :: 0 <= i < |a| ==> a[i] == b[i];
  }

  /** A coin is known by the one transaction of the chain that makes it. */
  lemma CoinMaker(txs: seq<Tx>, mine: set<Script>, op: OutPoint) returns (tx: Tx)
    requires DistinctIds(txs) && op in CoinMap(txs, mine)
    ensures tx in txs && tx.id == op.hash && Pays(tx, mine)
    ensures op in CoinsOf(tx, |tx.outs|, mine)
  {
    CoinMapMember(txs, mine, op);
    var n :| 0 <= n < |txs| && txs[n].id == op.hash && op.index < |txs[n].outs| && txs[n].outs[op.index].script in mine;
    tx := txs[n];
  }

  lemma CoinMade(txs: seq<Tx>, mine: set<Script>, op: OutPoint, tx: Tx)
    requires DistinctIds(txs) && tx in txs && op in CoinsOf(tx, |tx.outs|, mine)
    ensures op in CoinMap(txs, mine)
    ensures CoinMap(txs, mine)[op] == tx.outs[op.index].value
  {
    CoinMapMember(txs, mine, op);
    var n :| 0 <= n < |txs| && txs[n] == tx;
  }

  lemma RowsDistinct(blocks: seq<Block>, from: nat, rows: seq<TxRow>, mine: set<Script>)
    requires ValidBlocks(blocks) && Covers(blocks, from, rows, mine)
    ensures DistinctIds(TxsOf(rows))
    ensures forall tx :: tx in TxsOf(rows) ==> tx in AllTxs(blocks)
    ensures forall tx :: HasTx(rows, tx) <==> tx in TxsOf(rows)
  {
    forall n | 0 <= n < |rows|
      ensures TxsOf(rows)[n] in AllTxs(blocks) && TxsOf(rows)[n].id != ZERO_HASH
    {
      AllTxsMember(blocks, rows[n].tx);
      var k :| 0 <= k < |AllTxs(blocks)| && AllTxs(blocks)[k] == rows[n].tx;
    }
    forall tx | HasTx(rows, tx)
      ensures tx in TxsOf(rows)
    {
      var n :| 0 <= n < |rows| && rows[n].tx == tx;
      assert TxsOf(rows)[n] == tx;
    }
    forall tx | tx in TxsOf(rows)
      ensures HasTx(rows, tx)
    {
      var n :| 0 <= n < |rows| && TxsOf(rows)[n] == tx;
      assert rows[n].tx == tx;
    }
  }

  /** The stored rows make every coin the chain makes. */
  lemma StoredCoins(blocks: seq<Block>, from: nat, rows: seq<TxRow>, mine: set<Script>)
    requires ValidBlocks(blocks) && Quiet(blocks, from, mine) && Covers(blocks, from, rows, mine)
    ensures CoinMap(TxsOf(rows), mine) == CoinMap(AllTxs(blocks), mine)
  {
    var txs, all := TxsOf(rows), AllTxs(blocks);
    RowsDistinct(blocks, from, rows, mine);
    forall op | op in CoinMap(txs, mine)
      ensures op in CoinMap(all, mine) && CoinMap(all, mine)[op] == CoinMap(txs, mine)[op]
    {
      var tx := CoinMaker(txs, mine, op);
      CoinMade(all, mine, op, tx);
      CoinMade(txs, mine, op, tx);
    }
    forall op | op in CoinMap(all, mine)
      ensures op in CoinMap(txs, mine)
    {
      var tx := CoinMaker(all, mine, op);
      AllTxsMember(blocks, tx);
      var h :| 0 <= h < |blocks| && tx in blocks[h];
      assert MustStore(blocks, h, tx, mine);
      CoinMade(txs, mine, op, tx);
    }
  }

  // --------------------------------------------- where the two may disagree

  /** The coins that some transaction of the chain spends and no stored one does. */
  ghost function Missed(blocks: seq<Block>, rows: seq<TxRow>, mine: set<Script>): map<OutPoint, int> {
    Restrict(CoinMap(AllTxs(blocks), mine), Spent(AllTxs(blocks)) - Spent(TxsOf(rows)))
  }

  lemma StoredSpends(blocks: seq<Block>, from: nat, rows: seq<TxRow>, mine: set<Script>)
    requires ValidBlocks(blocks) && Covers(blocks, from, rows, mine)
    ensures Spent(TxsOf(rows)) <= Spent(AllTxs(blocks))
  {
    var txs, all := TxsOf(rows), AllTxs(blocks);
    RowsDistinct(blocks, from, rows, mine);
    forall op | op in Spent(txs)
      ensures op in Spent(all)
    {
      AllInsMember(txs, op);
      AllInsMember(all, op);
      var n :| 0 <= n < |txs| && op in txs[n].ins;
      assert txs[n] in all;
    }
  }

  /** The balance of the stored rows is the watched part of the ledger and, on
      top, the value of the coins whose spending was missed. */
  lemma BalanceIsLedger(blocks: seq<Block>, from: nat, rows: seq<TxRow>, mine: set<Script>)
    requires ValidBlocks(blocks) && Quiet(blocks, from, mine) && Covers(blocks, from, rows, mine)
    ensures Missed(blocks, rows, mine).Keys !! Watched(Utxo(AllTxs(blocks)), mine).Keys
    ensures Unspent(TxsOf(rows), mine) == Watched(Utxo(AllTxs(blocks)), mine) + Missed(blocks, rows, mine)
    ensures Sum(Unspent(TxsOf(rows), mine)) == Sum(Watched(Utxo(AllTxs(blocks)), mine)) + Sum(Missed(blocks, rows, mine))
  {
    var txs, all := TxsOf(rows), AllTxs(blocks);
    StoredCoins(blocks, from, rows, mine);
    StoredSpends(blocks, from, rows, mine);
    UtxoIsUnspent(all, mine);
    SpendMore(CoinMap(all, mine), Spent(txs), Spent(all));
    hide Utxo, CoinMap, Watched, Spent;
    SumUnion(Watched(Utxo(all), mine), Missed(blocks, rows, mine));
  }

  lemma SpendMore(coins: map<OutPoint, int>, some: set<OutPoint>, all: set<OutPoint>)
    requires some <= all
    ensures coins - some == (coins - all) + Restrict(coins, all - some)
    ensures (coins - all).Keys !! Restrict(coins, all - some).Keys
  {
  }

  /** A block whose transactions spend its own wallet outputs unseen: in it a
      transaction spends a coin made by the block while neither paying the
      wallet nor spending a coin of an earlier block. */
  ghost predicate HidesSpend(blocks: seq<Block>, h: nat, op: OutPoint, mine: set<Script>)
    requires h < |blocks|
  {
    && op in CoinsBelow(blocks, h + 1, mine) && op !in CoinsBelow(blocks, h, mine)
    && exists tx :: tx in blocks[h] && op in tx.ins && !MustStore(blocks, h, tx, mine)
  }

  /** A missed coin was spent by a transaction that is not stored, not before
      the block that made it. */
  lemma MissedAt(blocks: seq<Block>, from: nat, rows: seq<TxRow>, mine: set<Script>, op: OutPoint)
    returns (spender: Tx, s: nat)
    requires ValidBlocks(blocks) && Quiet(blocks, from, mine)
    requires op in Missed(blocks, rows, mine)
    ensures from <= s < |blocks| && spender in blocks[s] && op in spender.ins && !HasTx(rows, spender)
    ensures op in CoinsBelow(blocks, s + 1, mine)
  {
    hide ValidBlocks, Quiet, Missed, CoinsBelow, CoinsOf, HasTx;
    MissedIsCoin(blocks, rows, mine, op);
    var maker, h := MissedMaker(blocks, from, mine, op);
    spender, s := MissedSpender(blocks, rows, mine, op);
    KnownWhereSpent(blocks, h, s, maker, spender, op, mine);
  }

  lemma MissedIsCoin(blocks: seq<Block>, rows: seq<TxRow>, mine: set<Script>, op: OutPoint)
    requires op in Missed(blocks, rows, mine)
    ensures op in CoinMap(AllTxs(blocks), mine)
  {
  }

  /** A coin is spent in the block that makes it or above, so it is known at the end of that block. */
  lemma KnownWhereSpent(blocks: seq<Block>, h: nat, s: nat, maker: Tx, spender: Tx, op: OutPoint, mine: set<Script>)
    requires ValidBlocks(blocks) && h < |blocks| && s < |blocks|
    requires maker in blocks[h] && spender in blocks[s]
    requires op in spender.ins && op.hash == maker.id && op in CoinsOf(maker, |maker.outs|, mine)
    ensures h <= s && op in CoinsBelow(blocks, s + 1, mine)
  {
    hide ValidBlocks, CoinsBelow, CoinsOf;
    SpenderNotEarlier(blocks, h, s, maker, spender, op);
    CoinAppears(blocks, h, maker, op, mine);
    CoinStays(blocks, h + 1, s + 1, op, mine);
  }

  /** A missed coin was spent in the very block that made it, unseen. */
  lemma MissedIsHidden(blocks: seq<Block>, from: nat, rows: seq<TxRow>, mine: set<Script>, op: OutPoint)
    requires ValidBlocks(blocks) && Quiet(blocks, from, mine) && Covers(blocks, from, rows, mine)
    requires op in Missed(blocks, rows, mine)
    ensures exists h :: from <= h < |blocks| && HidesSpend(blocks, h, op, mine)
  {
    hide ValidBlocks, Quiet, Missed, CoinsBelow;
    var spender, s := MissedAt(blocks, from, rows, mine, op);
    assert !MustStore(blocks, s, spender, mine);
    NotSpendsKnown(blocks, s, spender, op, mine);
    assert HidesSpend(blocks, s, op, mine);
  }

  lemma NotSpendsKnown(blocks: seq<Block>, h: nat, tx: Tx, op: OutPoint, mine: set<Script>)
    requires h <= |blocks| && op in tx.ins && !MustStore(blocks, h, tx, mine)
    ensures op !in CoinsBelow(blocks, h, mine)
  {
    var i :| 0 <= i < |tx.ins| && tx.ins[i] == op;
  }

  lemma MissedMaker(blocks: seq<Block>, from: nat, mine: set<Script>, op: OutPoint) returns (maker: Tx, h: nat)
    requires ValidBlocks(blocks) && Quiet(blocks, from, mine)
    requires op in CoinMap(AllTxs(blocks), mine)
    ensures from <= h < |blocks| && maker in blocks[h]
    ensures op.hash == maker.id && op in CoinsOf(maker, |maker.outs|, mine)
  {
    maker := CoinMaker(AllTxs(blocks), mine, op);
    AllTxsMember(blocks, maker);
    h :| 0 <= h < |blocks| && maker in blocks[h];
  }

  lemma MissedSpender(blocks: seq<Block>, rows: seq<TxRow>, mine: set<Script>, op: OutPoint)
    returns (spender: Tx, s: nat)
    requires op in Missed(blocks, rows, mine)
    ensures s < |blocks| && spender in blocks[s] && op in spender.ins
    ensures !HasTx(rows, spender)
  {
    var all := AllTxs(blocks);
    AllInsMember(all, op);
    var n :| 0 <= n < |all| && op in all[n].ins;
    spender := all[n];
    AllTxsMember(blocks, spender);
    s :| 0 <= s < |blocks| && spender in blocks[s];
    NotStored(blocks, rows, mine, op, spender);
  }

  lemma NotStored(blocks: seq<Block>, rows: seq<TxRow>, mine: set<Script>, op: OutPoint, tx: Tx)
    requires op in Missed(blocks, rows, mine) && op in tx.ins
    ensures !HasTx(rows, tx)
  {
    AllInsMember(TxsOf(rows), op);
    forall n | 0 <= n < |rows|
      ensures rows[n].tx != tx
    {
      assert TxsOf(rows)[n] == rows[n].tx;
    }
  }

  lemma {:induction false} BlockPosition(blocks: seq<Block>, h: nat, tx: Tx) returns (i: nat)
    requires h < |blocks| && tx in blocks[h]
    ensures |AllTxs(blocks[..h])| <= i < |AllTxs(blocks[..h + 1])| <= |AllTxs(blocks)|
    ensures AllTxs(blocks)[i] == tx
  {
    AllTxsPrefix(blocks, h + 1);
    assert blocks[..h + 1][..h] == blocks[..h];
    var k :| 0 <= k < |blocks[h]| && blocks[h][k] == tx;
    i := |AllTxs(blocks[..h])| + k;
    assert AllTxs(blocks[..h + 1])[i] == tx;
  }

  /** A coin is never spent in a block before the one that makes it. */
  lemma SpenderNotEarlier(blocks: seq<Block>, h: nat, s: nat, maker: Tx, spender: Tx, op: OutPoint)
    requires ValidBlocks(blocks) && h < |blocks| && s < |blocks|
    requires maker in blocks[h] && spender in blocks[s]
    requires op in spender.ins && op.hash == maker.id
    ensures h <= s
  {
    if s < h {
      AllTxsPrefix(blocks[..h], s + 1);
      assert blocks[..h][..s + 1] == blocks[..s + 1];
      var j := BlockPosition(blocks, s, spender);
      var i := BlockPosition(blocks, h, maker);
    }
  }

  lemma CoinAppears(blocks: seq<Block>, h: nat, maker: Tx, op: OutPoint, mine: set<Script>)
    requires ValidBlocks(blocks) && h < |blocks| && maker in blocks[h]
    requires op in CoinsOf(maker, |maker.outs|, mine)
    ensures op in CoinsBelow(blocks, h + 1, mine) && op !in CoinsBelow(blocks, h, mine)
  {
    ValidPrefix(blocks, h + 1);
    ValidPrefix(blocks, h);
    assert blocks[..h + 1][h] == blocks[h];
    AllTxsMember(blocks[..h + 1], maker);
    CoinMade(AllTxs(blocks[..h + 1]), mine, op, maker);
    var i := BlockPosition(blocks, h, maker);
    AllTxsPrefix(blocks, h);
    var below := AllTxs(blocks[..h]);
    CoinMapMember(below, mine, op);
    forall n | 0 <= n < |below|
      ensures below[n].id != op.hash
    {
      assert below[n] == AllTxs(blocks)[n];
    }
  }

  lemma CoinStays(blocks: seq<Block>, a: nat, b: nat, op: OutPoint, mine: set<Script>)
    requires ValidBlocks(blocks) && a <= b <= |blocks|
    requires op in CoinsBelow(blocks, a, mine)
    ensures op in CoinsBelow(blocks, b, mine)
  {
    ValidPrefix(blocks, a);
    ValidPrefix(blocks, b);
    var tx := CoinMaker(AllTxs(blocks[..a]), mine, op);
    AllTxsPrefix(blocks[..b], a);
    assert blocks[..b][..a] == blocks[..a];
    CoinMade(AllTxs(blocks[..b]), mine, op, tx);
  }

  /** With no spend hidden in its own block, the balance is the ledger's. */
  lemma BalanceExact(blocks: seq<Block>, from: nat, rows: seq<TxRow>, mine: set<Script>)
    requires ValidBlocks(blocks) && Quiet(blocks, from, mine) && Covers(blocks, from, rows, mine)
    requires forall h, op :: from <= h < |blocks| ==> !HidesSpend(blocks, h, op, mine)
    ensures Unspent(TxsOf(rows), mine) == Watched(Utxo(AllTxs(blocks)), mine)
  {
    hide Utxo, CoinMap, Watched, Unspent, ValidBlocks, Quiet, Covers, HidesSpend;
    BalanceIsLedger(blocks, from, rows, mine);
    NothingMissed(blocks, from, rows, mine);
    assert Watched(Utxo(AllTxs(blocks)), mine) + map[] == Watched(Utxo(AllTxs(blocks)), mine);
  }

  lemma NothingMissed(blocks: seq<Block>, from: nat, rows: seq<TxRow>, mine: set<Script>)
    requires ValidBlocks(blocks) && Quiet(blocks, from, mine) && Covers(blocks, from, rows, mine)
    requires forall h, op :: from <= h < |blocks| ==> !HidesSpend(blocks, h, op, mine)
    ensures Missed(blocks, rows, mine) == map[]
  {
    hide ValidBlocks, Quiet, Covers, HidesSpend, Missed;
    forall op
      ensures op !in Missed(blocks, rows, mine)
    {
      if op in Missed(blocks, rows, mine) {
        MissedIsHidden(blocks, from, rows, mine, op);
      }
    }
  }

  // ---------------------------------------------------- processing one block

  /** The rows but the one with the id. */
  function Without(rows: seq<TxRow>, id: Hash): seq<TxRow> {
    if rows == [] then []
    else Without(rows[..|rows| - 1], id) + if rows[|rows| - 1].tx.id == id then [] else [rows[|rows| - 1]]
  }

  /** Stores a row, replacing the one with its id. */
  function Save(rows: seq<TxRow>, row: TxRow): seq<TxRow> {
    Without(rows, row.tx.id) + [row]
  }

  /** The transaction touches the wallet: it spends a known outpoint or pays a watched script. */
  predicate Relevant(tx: Tx, known: set<OutPoint>, mine: set<Script>) {
    Spends(tx, known) || Pays(tx, mine)
  }

  /** The rows after a block was processed, the known outpoints as of its start. */
  function Process(rows: seq<TxRow>, txs: seq<Tx>, known: set<OutPoint>, mine: set<Script>, height: int, hash: Hash): seq<TxRow> {
    if txs == [] then rows
    else
      var before := Process(rows, txs[..|txs| - 1], known, mine, height, hash);
      var tx := txs[|txs| - 1];
      if Relevant(tx, known, mine) then Save(before, TxRow(tx, height, hash)) else before
  }

  lemma {:induction false} WithoutMember(rows: seq<TxRow>, id: Hash, row: TxRow)
    ensures row in Without(rows, id) <==> row in rows && row.tx.id != id
  {
    if rows != [] {
      var n := |rows| - 1;
      WithoutMember(rows[..n], id, row);
      assert rows == rows[..n] + [rows[n]];
    }
  }

  ghost predicate DistinctRows(rows: seq<TxRow>) {
    forall i, j :: 0 <= i < j < |rows| ==> rows[i].tx.id != rows[j].tx.id
  }

  lemma {:induction false} WithoutDistinct(rows: seq<TxRow>, id: Hash)
    requires DistinctRows(rows)
    ensures DistinctRows(Without(rows, id))
  {
    if rows != [] {
      var n := |rows| - 1;
      WithoutDistinct(rows[..n], id);
      if rows[n].tx.id != id {
        var rest := Without(rows[..n], id);
        forall i | 0 <= i < |rest|
          ensures rest[i].tx.id != rows[n].tx.id
        {
          WithoutMember(rows[..n], id, rest[i]);
          var k :| 0 <= k < n && rows[..n][k] == rest[i];
          assert rows[k] == rest[i];
        }
      }
    }
  }

  lemma SaveMember(rows: seq<TxRow>, row: TxRow, r: TxRow)
    requires DistinctRows(rows)
    ensures r in Save(rows, row) <==> r == row || (r in rows && r.tx.id != row.tx.id)
    ensures DistinctRows(Save(rows, row))
  {
    WithoutMember(rows, row.tx.id, r);
    WithoutDistinct(rows, row.tx.id);
    var rest := Without(rows, row.tx.id);
    forall i | 0 <= i < |rest|
      ensures rest[i].tx.id != row.tx.id
    {
      WithoutMember(rows, row.tx.id, rest[i]);
    }
  }

  /** Processing a block adds its relevant transactions, replaces the rows with
      their ids and leaves every other row. */
  lemma {:induction false} ProcessMember(rows: seq<TxRow>, txs: seq<Tx>, known: set<OutPoint>, mine: set<Script>,
      height: int, hash: Hash, r: TxRow)
    requires DistinctRows(rows)
    requires forall i, j :: 0 <= i < j < |txs| ==> txs[i].id != txs[j].id
    ensures DistinctRows(Process(rows, txs, known, mine, height, hash))
    ensures r in Process(rows, txs, known, mine, height, hash) <==>
              || (r.height == height && r.blockHash == hash && r.tx in txs && Relevant(r.tx, known, mine))
              || (r in rows && forall i :: 0 <= i < |txs| && Relevant(txs[i], known, mine) ==> txs[i].id != r.tx.id)
  {
    hide Relevant, Save, DistinctRows;
    if txs != [] {
      var n := |txs| - 1;
      var before := Process(rows, txs[..n], known, mine, height, hash);
      ProcessMember(rows, txs[..n], known, mine, height, hash, r);
      assert txs == txs[..n] + [txs[n]];
      if Relevant(txs[n], known, mine) {
        SaveMember(before, TxRow(txs[n], height, hash), r);
      }
    }
  }

  lemma HasTxOf(rows: seq<TxRow>, row: TxRow)
    requires row in rows
    ensures HasTx(rows, row.tx)
  {
  }

  lemma BlockIds(blocks: seq<Block>, h: nat)
    requires ValidBlocks(blocks) && h < |blocks|
    ensures forall i, j :: 0 <= i < j < |blocks[h]| ==> blocks[h][i].id != blocks[h][j].id
    ensures forall k, tx, i :: 0 <= k < |blocks| && k != h && tx in blocks[k] && 0 <= i < |blocks[h]| ==> tx.id != blocks[h][i].id
  {
    var all := AllTxs(blocks);
    AllTxsPrefix(blocks, h + 1);
    assert blocks[..h + 1][..h] == blocks[..h];
    var base := |AllTxs(blocks[..h])|;
    forall i, j | 0 <= i < j < |blocks[h]|
      ensures blocks[h][i].id != blocks[h][j].id
    {
      assert all[base + i] == blocks[h][i] && all[base + j] == blocks[h][j];
    }
    forall k, tx, i | 0 <= k < |blocks| && k != h && tx in blocks[k] && 0 <= i < |blocks[h]|
      ensures tx.id != blocks[h][i].id
    {
      var p := BlockPosition(blocks, k, tx);
      assert all[base + i] == blocks[h][i];
      if k < h {
        AllTxsPrefix(blocks[..h], k + 1);
        assert blocks[..h][..k + 1] == blocks[..k + 1];
      } else {
        AllTxsPrefix(blocks[..k], h + 1);
        assert blocks[..k][..h + 1] == blocks[..h + 1];
      }
    }
  }

  /** Like Covers, the one block aside. */
  ghost predicate CoversBut(blocks: seq<Block>, from: nat, rows: seq<TxRow>, mine: set<Script>, but: nat) {
    && (forall n :: 0 <= n < |rows| ==> from <= rows[n].height < |blocks| && rows[n].tx in blocks[rows[n].height])
    && DistinctRows(rows)
    && (forall h, tx :: from <= h < |blocks| && h != but && tx in blocks[h] && MustStore(blocks, h, tx, mine) ==> HasTx(rows, tx))
  }

  lemma MustStorePrefix(blocks: seq<Block>, k: nat, h: nat, tx: Tx, mine: set<Script>)
    requires k <= h <= |blocks|
    ensures MustStore(blocks[..h], k, tx, mine) == MustStore(blocks, k, tx, mine)
  {
    assert blocks[..h][..k] == blocks[..k];
  }

  /** What covers the blocks below the last covers all but the last. */
  lemma CoversBelow(blocks: seq<Block>, from: nat, rows: seq<TxRow>, mine: set<Script>)
    requires blocks != [] && Covers(blocks[..|blocks| - 1], from, rows, mine)
    ensures CoversBut(blocks, from, rows, mine, |blocks| - 1)
  {
    var last := |blocks| - 1;
    hide MustStore;
    forall h, tx | from <= h < |blocks| && h != last && tx in blocks[h] && MustStore(blocks, h, tx, mine)
      ensures HasTx(rows, tx)
    {
      MustStorePrefix(blocks, h, last, tx, mine);
      assert tx in blocks[..last][h];
    }
  }

  /** Processing a block with every coin of the blocks below known covers it too. */
  lemma ProcessCovers(blocks: seq<Block>, from: nat, rows: seq<TxRow>, mine: set<Script>, h: nat,
      known: set<OutPoint>, hash: Hash)
    requires ValidBlocks(blocks) && from <= h < |blocks|
    requires CoversBut(blocks, from, rows, mine, h)
    requires CoinsBelow(blocks, h, mine).Keys <= known
    ensures Covers(blocks, from, Process(rows, blocks[h], known, mine, h, hash), mine)
  {
    var after := Process(rows, blocks[h], known, mine, h, hash);
    BlockIds(blocks, h);
    forall n | 0 <= n < |after|
      ensures from <= after[n].height < |blocks| && after[n].tx in blocks[after[n].height]
    {
      ProcessMember(rows, blocks[h], known, mine, h, hash, after[n]);
    }
    forall k, tx | from <= k < |blocks| && tx in blocks[k] && MustStore(blocks, k, tx, mine)
      ensures HasTx(after, tx)
    {
      if k == h {
        ProcessMember(rows, blocks[h], known, mine, h, hash, TxRow(tx, h, hash));
        assert Relevant(tx, known, mine);
        HasTxOf(after, TxRow(tx, h, hash));
      } else {
        var n :| 0 <= n < |rows| && rows[n].tx == tx;
        ProcessMember(rows, blocks[h], known, mine, h, hash, rows[n]);
        HasTxOf(after, rows[n]);
      }
    }
    ProcessMember(rows, blocks[h], known, mine, h, hash, TxRow(Tx(0, [], []), 0, 0));
  }

  /** Every row is of one of the blocks, and no two have one id. */
  ghost predicate Placed(blocks: seq<Block>, rows: seq<TxRow>) {
    && DistinctRows(rows)
    && forall n :: 0 <= n < |rows| ==> 0 <= rows[n].height < |blocks| && rows[n].tx in blocks[rows[n].height]
  }

  /** Processing a block keeps what is stored. */
  lemma ProcessHolds(blocks: seq<Block>, rows: seq<TxRow>, h: nat, known: set<OutPoint>, mine: set<Script>, hash: Hash,
      tx: Tx)
    requires ValidBlocks(blocks) && h < |blocks| && Placed(blocks, rows) && HasTx(rows, tx)
    ensures HasTx(Process(rows, blocks[h], known, mine, h, hash), tx)
  {
    var after := Process(rows, blocks[h], known, mine, h, hash);
    var n :| 0 <= n < |rows| && rows[n].tx == tx;
    BlockIds(blocks, h);
    hide ValidBlocks, Process;
    ProcessMember(rows, blocks[h], known, mine, h, hash, rows[n]);
    if i :| 0 <= i < |blocks[h]| && Relevant(blocks[h][i], known, mine) && blocks[h][i].id == tx.id {
      assert tx in blocks[rows[n].height];
      assert rows[n].height == h;
      assert blocks[h][i] == tx;
      ProcessMember(rows, blocks[h], known, mine, h, hash, TxRow(tx, h, hash));
      HasTxOf(after, TxRow(tx, h, hash));
    } else {
      HasTxOf(after, rows[n]);
    }
  }

  /** Processing a block stores nothing but transactions of the block. */
  lemma ProcessAdds(blocks: seq<Block>, rows: seq<TxRow>, h: nat, known: set<OutPoint>, mine: set<Script>, hash: Hash,
      row: TxRow)
    requires ValidBlocks(blocks) && h < |blocks| && Placed(blocks, rows)
    requires row in Process(rows, blocks[h], known, mine, h, hash)
    ensures row in rows || (row.tx in blocks[h] && row.height == h)
  {
    BlockIds(blocks, h);
    hide ValidBlocks, Process;
    ProcessMember(rows, blocks[h], known, mine, h, hash, row);
  }

  lemma NewAtHeight(blocks: seq<Block>, rows: seq<TxRow>, h: nat, known: set<OutPoint>, mine: set<Script>, hash: Hash,
      k: nat, tx: Tx)
    requires ValidBlocks(blocks) && h < |blocks| && Placed(blocks, rows)
    requires k < |blocks| && tx in blocks[k] && !HasTx(rows, tx)
    requires HasTx(Process(rows, blocks[h], known, mine, h, hash), tx)
    ensures k == h
  {
    var after := Process(rows, blocks[h], known, mine, h, hash);
    var n :| 0 <= n < |after| && after[n].tx == tx;
    BlockIds(blocks, h);
    hide ValidBlocks, Process, Placed;
    ProcessAdds(blocks, rows, h, known, mine, hash, after[n]);
    if after[n] in rows {
      HasTxOf(rows, after[n]);
    }
    var i :| 0 <= i < |blocks[h]| && blocks[h][i] == tx;
  }

  /** A block with nothing to store is covered as it is. */
  lemma SkipCovers(blocks: seq<Block>, from: nat, rows: seq<TxRow>, mine: set<Script>, last: nat)
    requires last < |blocks| && CoversBut(blocks, from, rows, mine, last)
    requires forall tx :: tx in blocks[last] ==> !MustStore(blocks, last, tx, mine)
    ensures Covers(blocks, from, rows, mine)
  {
  }

  /** The rows at or below a height: what a rewind keeps. */
  function KeepUpTo(rows: seq<TxRow>, height: int): seq<TxRow> {
    if rows == [] then []
    else KeepUpTo(rows[..|rows| - 1], height) + if rows[|rows| - 1].height <= height then [rows[|rows| - 1]] else []
  }

  lemma {:induction false} KeepMember(rows: seq<TxRow>, height: int, r: TxRow)
    ensures r in KeepUpTo(rows, height) <==> r in rows && r.height <= height
    ensures DistinctRows(rows) ==> DistinctRows(KeepUpTo(rows, height))
  {
    if rows != [] {
      var n := |rows| - 1;
      KeepMember(rows[..n], height, r);
      assert rows == rows[..n] + [rows[n]];
      if DistinctRows(rows) && rows[n].height <= height {
        var rest := KeepUpTo(rows[..n], height);
        forall i | 0 <= i < |rest|
          ensures rest[i].tx.id != rows[n].tx.id
        {
          KeepMember(rows[..n], height, rest[i]);
          OtherId(rows, n, rest[i]);
        }
      }
    }
  }

  lemma OtherId(rows: seq<TxRow>, n: nat, r: TxRow)
    requires DistinctRows(rows) && n < |rows| && r in rows[..n]
    ensures r.tx.id != rows[n].tx.id
  {
    var k :| 0 <= k < n && rows[..n][k] == r;
    assert rows[k] == r;
  }

  /** After a rewind the rows cover the blocks that are left. */
  lemma RewindCovers(blocks: seq<Block>, from: nat, rows: seq<TxRow>, mine: set<Script>, k: nat)
    requires ValidBlocks(blocks) && Covers(blocks, from, rows, mine) && k <= |blocks|
    ensures Covers(blocks[..k], from, KeepUpTo(rows, k - 1), mine)
  {
    hide MustStore, ValidBlocks, KeepUpTo;
    var kept := KeepUpTo(rows, k - 1);
    forall n | 0 <= n < |kept|
      ensures from <= kept[n].height < k && kept[n].tx in blocks[..k][kept[n].height]
    {
      KeepMember(rows, k - 1, kept[n]);
    }
    forall h, tx | from <= h < k && tx in blocks[..k][h] && MustStore(blocks[..k], h, tx, mine)
      ensures HasTx(kept, tx)
    {
      MustStorePrefix(blocks, h, k, tx, mine);
      var n :| 0 <= n < |rows| && rows[n].tx == tx;
      RowAtItsHeight(blocks, from, rows, mine, n, h);
      KeepMember(rows, k - 1, rows[n]);
      HasTxOf(kept, rows[n]);
    }
    KeepMember(rows, k - 1, TxRow(Tx(0, [], []), 0, 0));
  }

  lemma RowAtItsHeight(blocks: seq<Block>, from: nat, rows: seq<TxRow>, mine: set<Script>, n: nat, h: nat)
    requires ValidBlocks(blocks) && Covers(blocks, from, rows, mine)
    requires n < |rows| && h < |blocks| && rows[n].tx in blocks[h]
    ensures rows[n].height == h
  {
    BlockIds(blocks, h);
    var i :| 0 <= i < |blocks[h]| && blocks[h][i] == rows[n].tx;
  }

  // -------------------------------------------------------------- whole runs

  /** A filter without false negatives: it holds every wallet script the block
      pays and every wallet script whose coins the block spends (BIP 158). */
  ghost predicate FilterComplete(blocks: seq<Block>, h: nat, filter: set<Script>, mine: set<Script>)
    requires h < |blocks|
  {
    forall s, tx :: s in mine && tx in blocks[h] && MustStore(blocks, h, tx, {s}) ==> s in filter
  }

  lemma UnmatchedBlock(blocks: seq<Block>, h: nat, filter: set<Script>, mine: set<Script>)
    requires ValidBlocks(blocks) && h < |blocks|
    requires FilterComplete(blocks, h, filter, mine) && filter !! mine
    ensures forall tx :: tx in blocks[h] ==> !MustStore(blocks, h, tx, mine)
  {
    forall tx | tx in blocks[h]
      ensures !MustStore(blocks, h, tx, mine)
    {
      if MustStore(blocks, h, tx, mine) {
        var s := MustStoreFor(blocks, h, tx, mine);
      }
    }
  }

  /** A transaction to store is one to store for some single script. */
  lemma MustStoreFor(blocks: seq<Block>, h: nat, tx: Tx, mine: set<Script>) returns (s: Script)
    requires ValidBlocks(blocks) && h <= |blocks| && MustStore(blocks, h, tx, mine)
    ensures s in mine && MustStore(blocks, h, tx, {s})
  {
    if Pays(tx, mine) {
      var i :| 0 <= i < |tx.outs| && tx.outs[i].script in mine;
      s := tx.outs[i].script;
    } else {
      var coins := CoinsBelow(blocks, h, mine);
      var i :| 0 <= i < |tx.ins| && tx.ins[i] in coins;
      ValidPrefix(blocks, h);
      var maker := CoinMaker(AllTxs(blocks[..h]), mine, tx.ins[i]);
      s := maker.outs[tx.ins[i].index].script;
      CoinMade(AllTxs(blocks[..h]), {s}, tx.ins[i], maker);
    }
  }

  /** The blocks, the stored rows and, as a history, which outpoints were known
      when a block was processed: none where its filter matched nothing. */
  datatype ScanState = ScanState(blocks: seq<Block>, rows: seq<TxRow>, seen: seq<Option<set<OutPoint>>>)

  /** Only the blocks below the filter start, none of them scanned. */
  function Unscanned(below: seq<Block>): ScanState {
    ScanState(below, [], seq(|below|, i requires 0 <= i < |below| => None))
  }

  /** A block's filter is matched at the tip, some transactions being pending, or the chain is rewound. */
  datatype Event =
    | BlockEvent(block: Block, hash: Hash, filter: set<Script>, pending: seq<Tx>)
    | RewindEvent(height: int)

  function Next(st: ScanState, ev: Event, mine: set<Script>): ScanState {
    match ev
    case BlockEvent(block, hash, filter, pending) =>
      var known := CoinMap(TxsOf(st.rows) + pending, mine).Keys;
      if filter * mine == {} then ScanState(st.blocks + [block], st.rows, st.seen + [None])
      else
        ScanState(st.blocks + [block], Process(st.rows, block, known, mine, |st.blocks|, hash), st.seen + [Some(known)])
    case RewindEvent(height) =>
      if -1 <= height < |st.blocks| && height < |st.seen| then
        ScanState(st.blocks[..height + 1], KeepUpTo(st.rows, height), st.seen[..height + 1])
      else st
  }

  /** If its filter holds a watched script, just those transactions of the block
      are stored that pay the wallet or spend a wallet output of a transaction
      stored or pending before, and otherwise none. */
  lemma NextStores(st: ScanState, block: Block, hash: Hash, filter: set<Script>, pending: seq<Tx>,
      mine: set<Script>, tx: Tx)
    requires DistinctRows(st.rows) && DistinctIds(TxsOf(st.rows) + pending) && forall r :: r in st.rows ==> r.height < |st.blocks|
    requires tx in block && forall i, j :: 0 <= i < j < |block| ==> block[i].id != block[j].id
    ensures var after := Next(st, BlockEvent(block, hash, filter, pending), mine);
            && after.blocks == st.blocks + [block]
            && (filter !! mine ==> after.rows == st.rows)
            && (!(filter !! mine) ==>
                  (TxRow(tx, |st.blocks|, hash) in after.rows <==> Pays(tx, mine) || SpendsOf(tx, TxsOf(st.rows) + pending, mine)))
  {
    var all := TxsOf(st.rows) + pending;
    var known := CoinMap(all, mine).Keys;
    ProcessMember(st.rows, block, known, mine, |st.blocks|, hash, TxRow(tx, |st.blocks|, hash));
    SpendsKnown(tx, all, mine);
    hide Process, CoinMap, Spends, SpendsOf, Pays, DistinctIds, DistinctRows;
    var row := TxRow(tx, |st.blocks|, hash);
    assert row !in st.rows;
    if filter * mine == {} {
      NoneInCommon(filter, mine);
    }
  }

  /** The transaction spends a wallet output of one of the others. */
  ghost predicate SpendsOf(tx: Tx, txs: seq<Tx>, mine: set<Script>) {
    exists i, n: nat :: 0 <= i < |tx.ins| && MadeBy(txs, n, mine, tx.ins[i])
  }

  lemma SpendsKnown(tx: Tx, txs: seq<Tx>, mine: set<Script>)
    requires DistinctIds(txs)
    ensures Spends(tx, CoinMap(txs, mine).Keys) <==> SpendsOf(tx, txs, mine)
  {
    forall i | 0 <= i < |tx.ins|
      ensures tx.ins[i] in CoinMap(txs, mine) <==> exists n: nat :: MadeBy(txs, n, mine, tx.ins[i])
    {
      CoinMadeBy(txs, mine, tx.ins[i]);
    }
    hide CoinMap, MadeBy, DistinctIds;
  }

  /** A rewind to a height of the chain keeps the blocks and rows up to it. */
  lemma NextRewinds(st: ScanState, height: int, mine: set<Script>, r: TxRow)
    requires -1 <= height < |st.blocks| == |st.seen|
    ensures var after := Next(st, RewindEvent(height), mine);
            after.blocks == st.blocks[..height + 1] && (r in after.rows <==> r in st.rows && r.height <= height)
  {
    KeepMember(st.rows, height, r);
  }

  ghost predicate Allowed(st: ScanState, ev: Event, from: nat, mine: set<Script>) {
    match ev
    case BlockEvent(block, hash, filter, pending) =>
      ValidBlocks(st.blocks + [block]) && FilterComplete(st.blocks + [block], |st.blocks|, filter, mine)
    case RewindEvent(height) => height + 1 >= from
  }

  /** The state some run of allowed events reaches from the blocks below the filter start. */
  ghost predicate Reaches(below: seq<Block>, events: seq<Event>, st: ScanState, mine: set<Script>) {
    if events == [] then st == Unscanned(below)
    else
      var n := |events| - 1;
      exists before :: Reaches(below, events[..n], before, mine) && Allowed(before, events[n], |below|, mine)
                       && st == Next(before, events[n], mine)
  }

  lemma CoinMapAppend(a: seq<Tx>, b: seq<Tx>, mine: set<Script>)
    ensures CoinMap(a, mine).Keys <= CoinMap(a + b, mine).Keys
  {
    if b == [] {
      assert a + b == a;
    } else {
      var n := |b| - 1;
      assert (a + b)[..|a + b| - 1] == a + b[..n];
      CoinMapAppend(a, b[..n], mine);
    }
  }

  lemma NoneInCommon(a: set<Script>, b: set<Script>)
    requires a * b == {}
    ensures a !! b
  {
    forall s | s in a
      ensures s !in b
    {
      assert s in b ==> s in a * b;
    }
  }

  lemma NextCovers(st: ScanState, ev: Event, from: nat, mine: set<Script>)
    requires ValidBlocks(st.blocks) && from <= |st.blocks| && Quiet(st.blocks, from, mine)
    requires Covers(st.blocks, from, st.rows, mine)
    requires Allowed(st, ev, from, mine)
    ensures var st' := Next(st, ev, mine);
            && ValidBlocks(st'.blocks) && from <= |st'.blocks| && Quiet(st'.blocks, from, mine)
            && Covers(st'.blocks, from, st'.rows, mine)
  {
    hide ValidBlocks, Covers, CoversBut, FilterComplete, MustStore, Process, KeepUpTo;
    match ev
    case BlockEvent(block, hash, filter, pending) =>
      var blocks := st.blocks + [block];
      assert blocks[..|st.blocks|] == st.blocks;
      CoversBelow(blocks, from, st.rows, mine);
      if filter * mine == {} {
        NoneInCommon(filter, mine);
        UnmatchedBlock(blocks, |st.blocks|, filter, mine);
        SkipCovers(blocks, from, st.rows, mine, |st.blocks|);
      } else {
        StoredCoins(st.blocks, from, st.rows, mine);
        CoinMapAppend(TxsOf(st.rows), pending, mine);
        ProcessCovers(blocks, from, st.rows, mine, |st.blocks|, CoinMap(TxsOf(st.rows) + pending, mine).Keys, hash);
      }
    case RewindEvent(height) =>
      if -1 <= height < |st.blocks| {
        ValidPrefix(st.blocks, height + 1);
        RewindCovers(st.blocks, from, st.rows, mine, height + 1);
      }
  }

  lemma {:induction false} RunCovers(below: seq<Block>, events: seq<Event>, st: ScanState, mine: set<Script>)
    requires ValidBlocks(below) && Quiet(below, |below|, mine)
    requires Reaches(below, events, st, mine)
    ensures ValidBlocks(st.blocks) && |below| <= |st.blocks| && Quiet(st.blocks, |below|, mine)
    ensures Covers(st.blocks, |below|, st.rows, mine)
  {
    hide ValidBlocks, Quiet, Allowed, Next;
    if events != [] {
      var n := |events| - 1;
      var before :| Reaches(below, events[..n], before, mine) && Allowed(before, events[n], |below|, mine)
                    && st == Next(before, events[n], mine);
      RunCovers(below, events[..n], before, mine);
      NextCovers(before, events[n], |below|, mine);
    }
  }

  /** After every run of blocks and rewinds the balance is the watched part of
      the ledger of the current branch, and on top the coins whose spending was
      hidden in the block that made them. */
  lemma RunBalance(below: seq<Block>, events: seq<Event>, st: ScanState, mine: set<Script>)
    requires ValidBlocks(below) && Quiet(below, |below|, mine)
    requires Reaches(below, events, st, mine)
    ensures Sum(Unspent(TxsOf(st.rows), mine)) ==
            Sum(Watched(Utxo(AllTxs(st.blocks)), mine)) + Sum(Missed(st.blocks, st.rows, mine))
    ensures forall op :: op in Missed(st.blocks, st.rows, mine) ==>
              exists h :: |below| <= h < |st.blocks| && HidesSpend(st.blocks, h, op, mine)
  {
    hide ValidBlocks, Quiet, Covers, HidesSpend, Missed, Reaches;
    RunCovers(below, events, st, mine);
    BalanceIsLedger(st.blocks, |below|, st.rows, mine);
    forall op | op in Missed(st.blocks, st.rows, mine)
      ensures exists h :: |below| <= h < |st.blocks| && HidesSpend(st.blocks, h, op, mine)
    {
      MissedIsHidden(st.blocks, |below|, st.rows, mine, op);
    }
  }

  // ------------------------------------------------- exactly when they agree

  /** The transaction was found when its block was processed. */
  predicate Found(st: ScanState, h: nat, tx: Tx, mine: set<Script>) {
    h < |st.seen| && st.seen[h].Some? && Relevant(tx, st.seen[h].value, mine)
  }

  /** Exactly the transactions found when their blocks were processed are stored. */
  ghost predicate SeenExactly(st: ScanState, from: nat, mine: set<Script>) {
    && |st.seen| == |st.blocks|
    && forall h, tx :: from <= h < |st.blocks| && tx in st.blocks[h] ==> (HasTx(st.rows, tx) <==> Found(st, h, tx, mine))
  }

  lemma BlockSeen(st: ScanState, block: Block, hash: Hash, filter: set<Script>, pending: seq<Tx>, from: nat,
      mine: set<Script>)
    requires ValidBlocks(st.blocks + [block]) && from <= |st.blocks| && SeenExactly(st, from, mine)
    requires Placed(st.blocks, st.rows)
    ensures SeenExactly(Next(st, BlockEvent(block, hash, filter, pending), mine), from, mine)
  {
    var st' := Next(st, BlockEvent(block, hash, filter, pending), mine);
    hide ValidBlocks, Process, CoinMap, Relevant, Placed, HasTx, Found;
    forall k, tx | from <= k < |st'.blocks| && tx in st'.blocks[k]
      ensures HasTx(st'.rows, tx) <==> Found(st', k, tx, mine)
    {
      if k < |st.blocks| {
        OldSeen(st, block, hash, filter, pending, mine, k, tx);
      } else {
        NewSeen(st, block, hash, filter, pending, mine, tx);
      }
    }
  }

  lemma PlacedMore(blocks: seq<Block>, block: Block, rows: seq<TxRow>)
    requires Placed(blocks, rows)
    ensures Placed(blocks + [block], rows) && (blocks + [block])[..|blocks|] == blocks
  {
  }

  /** A new block changes nothing for a transaction of an earlier one. */
  lemma OldSeen(st: ScanState, block: Block, hash: Hash, filter: set<Script>, pending: seq<Tx>, mine: set<Script>,
      k: nat, tx: Tx)
    requires ValidBlocks(st.blocks + [block]) && Placed(st.blocks, st.rows) && |st.seen| == |st.blocks|
    requires k < |st.blocks| && tx in st.blocks[k]
    ensures var st' := Next(st, BlockEvent(block, hash, filter, pending), mine);
            (HasTx(st'.rows, tx) <==> HasTx(st.rows, tx)) && (Found(st', k, tx, mine) <==> Found(st, k, tx, mine))
  {
    hide ValidBlocks, Process, CoinMap, Relevant, Placed, HasTx;
    var blocks, h, known := st.blocks + [block], |st.blocks|, CoinMap(TxsOf(st.rows) + pending, mine).Keys;
    PlacedMore(st.blocks, block, st.rows);
    if filter * mine != {} {
      ProcessFinds(blocks, st.rows, h, known, mine, hash, k, tx);
    }
  }

  /** A transaction of the new block is stored exactly when it is found in it. */
  lemma NewSeen(st: ScanState, block: Block, hash: Hash, filter: set<Script>, pending: seq<Tx>, mine: set<Script>, tx: Tx)
    requires ValidBlocks(st.blocks + [block]) && Placed(st.blocks, st.rows) && |st.seen| == |st.blocks| && tx in block
    ensures var st' := Next(st, BlockEvent(block, hash, filter, pending), mine);
            HasTx(st'.rows, tx) <==> Found(st', |st.blocks|, tx, mine)
  {
    hide ValidBlocks, Process, CoinMap, Relevant, Placed, HasTx;
    var blocks, h, known := st.blocks + [block], |st.blocks|, CoinMap(TxsOf(st.rows) + pending, mine).Keys;
    PlacedMore(st.blocks, block, st.rows);
    NotYetStored(blocks, st.rows, h, tx);
    if filter * mine != {} {
      ProcessFinds(blocks, st.rows, h, known, mine, hash, h, tx);
    }
  }

  lemma NotYetStored(blocks: seq<Block>, rows: seq<TxRow>, h: nat, tx: Tx)
    requires ValidBlocks(blocks) && h + 1 == |blocks| && Placed(blocks[..h], rows) && tx in blocks[h]
    ensures !HasTx(rows, tx)
  {
    BlockIds(blocks, h);
    forall n | 0 <= n < |rows|
      ensures rows[n].tx != tx
    {
      assert rows[n].tx in blocks[rows[n].height];
    }
  }

  /** Processing stores of its block the relevant transactions and of the others what was stored. */
  lemma ProcessFinds(blocks: seq<Block>, rows: seq<TxRow>, h: nat, known: set<OutPoint>, mine: set<Script>, hash: Hash,
      k: nat, tx: Tx)
    requires ValidBlocks(blocks) && h < |blocks| && Placed(blocks, rows) && k < |blocks| && tx in blocks[k]
    ensures var after := Process(rows, blocks[h], known, mine, h, hash);
            HasTx(after, tx) <==> HasTx(rows, tx) || (k == h && Relevant(tx, known, mine))
  {
    var after := Process(rows, blocks[h], known, mine, h, hash);
    BlockIds(blocks, h);
    hide ValidBlocks, Process, Relevant;
    if HasTx(rows, tx) {
      ProcessHolds(blocks, rows, h, known, mine, hash, tx);
    } else if HasTx(after, tx) {
      NewAtHeight(blocks, rows, h, known, mine, hash, k, tx);
      var n :| 0 <= n < |after| && after[n].tx == tx;
      ProcessMember(rows, blocks[h], known, mine, h, hash, after[n]);
      if after[n] in rows {
        HasTxOf(rows, after[n]);
      }
    } else if k == h && Relevant(tx, known, mine) {
      ProcessMember(rows, blocks[h], known, mine, h, hash, TxRow(tx, h, hash));
      HasTxOf(after, TxRow(tx, h, hash));
    }
  }

  lemma RewindSeen(st: ScanState, height: int, from: nat, mine: set<Script>)
    requires ValidBlocks(st.blocks) && Covers(st.blocks, from, st.rows, mine) && SeenExactly(st, from, mine)
    requires -1 <= height < |st.blocks|
    ensures SeenExactly(Next(st, RewindEvent(height), mine), from, mine)
  {
    var st' := Next(st, RewindEvent(height), mine);
    hide ValidBlocks, KeepUpTo, Relevant, Covers;
    forall k, tx | from <= k < |st'.blocks| && tx in st'.blocks[k]
      ensures HasTx(st'.rows, tx) <==> Found(st', k, tx, mine)
    {
      assert tx in st.blocks[k] && Found(st', k, tx, mine) == Found(st, k, tx, mine);
      if n :| 0 <= n < |st.rows| && st.rows[n].tx == tx {
        RowAtItsHeight(st.blocks, from, st.rows, mine, n, k);
        KeepMember(st.rows, height, st.rows[n]);
        HasTxOf(st'.rows, st.rows[n]);
      }
      if n :| 0 <= n < |st'.rows| && st'.rows[n].tx == tx {
        KeepMember(st.rows, height, st'.rows[n]);
        HasTxOf(st.rows, st'.rows[n]);
      }
    }
  }

  lemma CoversPlaced(blocks: seq<Block>, from: nat, rows: seq<TxRow>, mine: set<Script>)
    requires Covers(blocks, from, rows, mine)
    ensures Placed(blocks, rows)
  {
  }

  /** After every run exactly what was found when its block was processed is stored. */
  lemma {:induction false} RunSeen(below: seq<Block>, events: seq<Event>, st: ScanState, mine: set<Script>)
    requires ValidBlocks(below) && Quiet(below, |below|, mine)
    requires Reaches(below, events, st, mine)
    ensures SeenExactly(st, |below|, mine)
  {
    hide ValidBlocks, Quiet, Next, Covers, FilterComplete;
    if events != [] {
      var n := |events| - 1;
      var before :| Reaches(below, events[..n], before, mine) && Allowed(before, events[n], |below|, mine)
                    && st == Next(before, events[n], mine);
      RunSeen(below, events[..n], before, mine);
      RunCovers(below, events[..n], before, mine);
      NextSeen(before, events[n], |below|, mine);
    }
  }

  lemma NextSeen(st: ScanState, ev: Event, from: nat, mine: set<Script>)
    requires ValidBlocks(st.blocks) && from <= |st.blocks| && Covers(st.blocks, from, st.rows, mine)
    requires SeenExactly(st, from, mine) && Allowed(st, ev, from, mine)
    ensures SeenExactly(Next(st, ev, mine), from, mine)
  {
    hide ValidBlocks, Covers, FilterComplete, Placed, HasTx, Process, KeepUpTo;
    match ev
    case BlockEvent(block, hash, filter, pending) =>
      CoversPlaced(st.blocks, from, st.rows, mine);
      BlockSeen(st, block, hash, filter, pending, from, mine);
    case RewindEvent(height) =>
      if -1 <= height < |st.blocks| {
        RewindSeen(st, height, from, mine);
      }
  }

  /** A coin made up to the block is spent in it unseen: by a transaction not
      found when the block was processed. */
  ghost predicate Hidden(st: ScanState, h: nat, op: OutPoint, mine: set<Script>)
    requires h < |st.blocks|
  {
    op in CoinsBelow(st.blocks, h + 1, mine) && exists tx :: tx in st.blocks[h] && op in tx.ins && !Found(st, h, tx, mine)
  }

  lemma HiddenIsMissed(st: ScanState, from: nat, mine: set<Script>, h: nat, op: OutPoint)
    requires ValidBlocks(st.blocks) && Covers(st.blocks, from, st.rows, mine) && SeenExactly(st, from, mine)
    requires NoDoubleSpend(AllTxs(st.blocks))
    requires from <= h < |st.blocks| && Hidden(st, h, op, mine)
    ensures op in Missed(st.blocks, st.rows, mine)
  {
    hide ValidBlocks, Covers, NoDoubleSpend, CoinMap, AllIns, HasTx, Found;
    var blocks := st.blocks;
    var all, txs := AllTxs(blocks), TxsOf(st.rows);
    var tx: Tx :| tx in blocks[h] && op in tx.ins && !Found(st, h, tx, mine);
    CoinStays(blocks, h + 1, |blocks|, op, mine);
    assert blocks[..|blocks|] == blocks;
    AllTxsMember(blocks, tx);
    AllInsMember(all, op);
    AllInsMember(txs, op);
    RowsDistinct(blocks, from, st.rows, mine);
    var i :| 0 <= i < |all| && all[i] == tx;
    assert op in all[i].ins;
    forall n | 0 <= n < |txs|
      ensures op !in txs[n].ins
    {
      assert txs[n] in all && txs[n] in txs;
      if op in txs[n].ins {
        OneSpender(all, op, tx, txs[n]);
      }
    }
  }

  /** A missed coin is hidden in the block that spends it. */
  lemma MissedHides(st: ScanState, from: nat, mine: set<Script>, op: OutPoint)
    requires ValidBlocks(st.blocks) && Quiet(st.blocks, from, mine) && SeenExactly(st, from, mine)
    requires op in Missed(st.blocks, st.rows, mine)
    ensures exists h :: from <= h < |st.blocks| && Hidden(st, h, op, mine)
  {
    hide ValidBlocks, Quiet, Missed, CoinsBelow, Found;
    var spender, s := MissedAt(st.blocks, from, st.rows, mine, op);
    assert Hidden(st, s, op, mine);
  }

  /** Where no outpoint is spent twice, its spender is one transaction. */
  lemma {:induction false} OneSpender(txs: seq<Tx>, op: OutPoint, a: Tx, b: Tx)
    requires NoDoubleSpend(txs) && a in txs && b in txs && op in a.ins && op in b.ins
    ensures a == b
  {
    var n := |txs| - 1;
    var rest := txs[..n];
    assert txs == rest + [txs[n]];
    var ins := AllIns(rest);
    assert AllIns(txs) == ins + txs[n].ins;
    assert NoDoubleSpend(rest) by {
      forall i, j | 0 <= i < j < |ins|
        ensures ins[i] != ins[j]
      {
        assert AllIns(txs)[i] == ins[i] && AllIns(txs)[j] == ins[j];
      }
    }
    AllInsMember(rest, op);
    if a in rest && b in rest {
      OneSpender(rest, op, a, b);
    } else {
      var k :| 0 <= k < |txs[n].ins| && txs[n].ins[k] == op;
      assert AllIns(txs)[|ins| + k] == op;
      assert op !in ins by {
        forall i | 0 <= i < |ins|
          ensures ins[i] != op
        {
          assert AllIns(txs)[i] == ins[i];
        }
      }
    }
  }

  ghost predicate HiddenIn(st: ScanState, from: nat, op: OutPoint, mine: set<Script>) {
    exists h :: from <= h < |st.blocks| && Hidden(st, h, op, mine)
  }

  lemma MissedIffHidden(below: seq<Block>, events: seq<Event>, st: ScanState, mine: set<Script>)
    requires ValidBlocks(below) && Quiet(below, |below|, mine)
    requires Reaches(below, events, st, mine) && NoDoubleSpend(AllTxs(st.blocks))
    ensures forall op :: op in Missed(st.blocks, st.rows, mine) <==> HiddenIn(st, |below|, op, mine)
  {
    hide ValidBlocks, Quiet, Covers, NoDoubleSpend, Hidden, Reaches, SeenExactly, Missed;
    RunCovers(below, events, st, mine);
    RunSeen(below, events, st, mine);
    forall h, op | |below| <= h < |st.blocks| && Hidden(st, h, op, mine)
      ensures op in Missed(st.blocks, st.rows, mine)
    {
      HiddenIsMissed(st, |below|, mine, h, op);
    }
    forall op | op in Missed(st.blocks, st.rows, mine)
      ensures HiddenIn(st, |below|, op, mine)
    {
      MissedHides(st, |below|, mine, op);
    }
  }

  /** After every run on a chain spending no outpoint twice, and with values
      that are never negative, the balance is the ledger's exactly when every
      coin spent unseen is worth nothing. */
  lemma BalanceExactly(below: seq<Block>, events: seq<Event>, st: ScanState, mine: set<Script>)
    requires ValidBlocks(below) && Quiet(below, |below|, mine)
    requires Reaches(below, events, st, mine)
    requires NoDoubleSpend(AllTxs(st.blocks))
    requires forall op :: op in CoinMap(AllTxs(st.blocks), mine) ==> CoinMap(AllTxs(st.blocks), mine)[op] >= 0
    ensures Sum(Unspent(TxsOf(st.rows), mine)) == Sum(Watched(Utxo(AllTxs(st.blocks)), mine)) <==>
            forall h, op :: |below| <= h < |st.blocks| && Hidden(st, h, op, mine) ==> ValueIn(CoinMap(AllTxs(st.blocks), mine), op) == 0
  {
    hide ValidBlocks, Quiet, Covers, NoDoubleSpend, Hidden, Unspent, Watched, Utxo, Reaches, Missed, CoinMap, HiddenIn;
    RunCovers(below, events, st, mine);
    BalanceIsLedger(st.blocks, |below|, st.rows, mine);
    MissedIffHidden(below, events, st, mine);
    MissedWorth(st.blocks, st.rows, mine);
    forall h, op | |below| <= h < |st.blocks| && Hidden(st, h, op, mine)
      ensures HiddenIn(st, |below|, op, mine)
    {
      HiddenThere(st, |below|, h, op, mine);
    }
    forall op | HiddenIn(st, |below|, op, mine)
      ensures exists h :: |below| <= h < |st.blocks| && Hidden(st, h, op, mine)
    {
      WhereHidden(st, |below|, op, mine);
    }
  }

  lemma HiddenThere(st: ScanState, from: nat, h: nat, op: OutPoint, mine: set<Script>)
    requires from <= h < |st.blocks| && Hidden(st, h, op, mine)
    ensures HiddenIn(st, from, op, mine)
  {
  }

  lemma WhereHidden(st: ScanState, from: nat, op: OutPoint, mine: set<Script>)
    requires HiddenIn(st, from, op, mine)
    ensures exists h :: from <= h < |st.blocks| && Hidden(st, h, op, mine)
  {
  }

  /** Of values that are never negative the missed ones sum up to nothing exactly when each is nothing. */
  lemma MissedWorth(blocks: seq<Block>, rows: seq<TxRow>, mine: set<Script>)
    requires forall op :: op in CoinMap(AllTxs(blocks), mine) ==> CoinMap(AllTxs(blocks), mine)[op] >= 0
    ensures Sum(Missed(blocks, rows, mine)) == 0 <==>
            forall op :: op in Missed(blocks, rows, mine) ==> ValueIn(CoinMap(AllTxs(blocks), mine), op) == 0
  {
    hide CoinMap, Spent;
    SumNonNegative(Missed(blocks, rows, mine));
  }

  /** With nothing pending, what is found in a block is what can be told from
      the blocks below it. */
  ghost predicate FindsMust(st: ScanState, from: nat, mine: set<Script>) {
    forall h, tx :: from <= h < |st.blocks| && tx in st.blocks[h] ==> (Found(st, h, tx, mine) <==> MustStore(st.blocks, h, tx, mine))
  }

  ghost predicate NoPending(ev: Event) {
    ev.BlockEvent? ==> ev.pending == []
  }

  lemma NextFinds(st: ScanState, ev: Event, from: nat, mine: set<Script>)
    requires ValidBlocks(st.blocks) && from <= |st.blocks| == |st.seen| && Quiet(st.blocks, from, mine)
    requires Covers(st.blocks, from, st.rows, mine) && FindsMust(st, from, mine)
    requires Allowed(st, ev, from, mine) && NoPending(ev)
    ensures FindsMust(Next(st, ev, mine), from, mine)
  {
    var st' := Next(st, ev, mine);
    hide ValidBlocks, Covers, FilterComplete, Process, KeepUpTo, MustStore, Relevant, CoinMap, Quiet;
    forall h, tx | from <= h < |st'.blocks| && tx in st'.blocks[h]
      ensures Found(st', h, tx, mine) <==> MustStore(st'.blocks, h, tx, mine)
    {
      if h < |st.blocks| {
        assert Found(st', h, tx, mine) == Found(st, h, tx, mine) && tx in st.blocks[h];
        var less := if ev.BlockEvent? then |st.blocks| else |st'.blocks|;
        assert st'.blocks[..|st'.blocks|] == st'.blocks && st.blocks[..|st.blocks|] == st.blocks;
        assert st'.blocks[..less] == st.blocks[..less];
        MustStorePrefix(st'.blocks, h, less, tx, mine);
        MustStorePrefix(st.blocks, h, less, tx, mine);
      } else {
        FindsNew(st, ev, from, mine, tx);
      }
    }
  }

  lemma FindsNew(st: ScanState, ev: Event, from: nat, mine: set<Script>, tx: Tx)
    requires ValidBlocks(st.blocks) && from <= |st.blocks| == |st.seen| && Quiet(st.blocks, from, mine)
    requires Covers(st.blocks, from, st.rows, mine)
    requires ev.BlockEvent? && ev.pending == [] && Allowed(st, ev, from, mine) && tx in ev.block
    ensures Found(Next(st, ev, mine), |st.blocks|, tx, mine) <==> MustStore(st.blocks + [ev.block], |st.blocks|, tx, mine)
  {
    var blocks := st.blocks + [ev.block];
    hide ValidBlocks, Covers, FilterComplete, Process, CoinMap, Quiet;
    assert blocks[..|st.blocks|] == st.blocks;
    if ev.filter * mine == {} {
      NoneInCommon(ev.filter, mine);
      UnmatchedBlock(blocks, |st.blocks|, ev.filter, mine);
    } else {
      StoredCoins(st.blocks, from, st.rows, mine);
      assert TxsOf(st.rows) + [] == TxsOf(st.rows);
    }
  }

  lemma {:induction false} RunFinds(below: seq<Block>, events: seq<Event>, st: ScanState, mine: set<Script>)
    requires ValidBlocks(below) && Quiet(below, |below|, mine)
    requires Reaches(below, events, st, mine) && forall ev :: ev in events ==> NoPending(ev)
    ensures FindsMust(st, |below|, mine)
  {
    hide ValidBlocks, Quiet, Next, Covers, FilterComplete, Found, MustStore;
    if events != [] {
      var n := |events| - 1;
      var before :| Reaches(below, events[..n], before, mine) && Allowed(before, events[n], |below|, mine)
                    && st == Next(before, events[n], mine);
      RunFinds(below, events[..n], before, mine);
      RunCovers(below, events[..n], before, mine);
      RunSeen(below, events[..n], before, mine);
      NextFinds(before, events[n], |below|, mine);
    }
  }

  /** So without pending transactions a spending is hidden exactly in the block
      that made the coin. */
  lemma HiddenWithoutPending(below: seq<Block>, events: seq<Event>, st: ScanState, mine: set<Script>, h: nat,
      op: OutPoint)
    requires ValidBlocks(below) && Quiet(below, |below|, mine)
    requires Reaches(below, events, st, mine) && forall ev :: ev in events ==> NoPending(ev)
    requires |below| <= h < |st.blocks|
    ensures Hidden(st, h, op, mine) <==> HidesSpend(st.blocks, h, op, mine)
  {
    hide ValidBlocks, Quiet, Reaches, CoinsBelow, Found, MustStore;
    RunFinds(below, events, st, mine);
    if Hidden(st, h, op, mine) {
      var tx: Tx :| tx in st.blocks[h] && op in tx.ins && !Found(st, h, tx, mine);
      NotSpendsKnown(st.blocks, h, tx, op, mine);
    }
  }

  // ----------------------------------------------------- reorganised or not

  /** What two complete scans of a branch keep of the ledger differs at most in
      what they missed. */
  lemma SameButMissed(blocks: seq<Block>, from: nat, a: seq<TxRow>, b: seq<TxRow>, mine: set<Script>)
    requires ValidBlocks(blocks) && Quiet(blocks, from, mine)
    requires Covers(blocks, from, a, mine) && Covers(blocks, from, b, mine)
    ensures Unspent(TxsOf(a), mine) == Unspent(TxsOf(b), mine) <==> Missed(blocks, a, mine).Keys == Missed(blocks, b, mine).Keys
  {
    BalanceIsLedger(blocks, from, a, mine);
    BalanceIsLedger(blocks, from, b, mine);
    var ledger := Watched(Utxo(AllTxs(blocks)), mine);
    hide ValidBlocks, Quiet, Covers, Utxo, Watched, CoinMap, Unspent, Spent;
    UnionKeys(ledger, Missed(blocks, a, mine), Missed(blocks, b, mine));
  }

  lemma UnionKeys(ledger: map<OutPoint, int>, a: map<OutPoint, int>, b: map<OutPoint, int>)
    requires a.Keys !! ledger.Keys && b.Keys !! ledger.Keys
    requires forall op :: op in a && op in b ==> a[op] == b[op]
    ensures ledger + a == ledger + b <==> a.Keys == b.Keys
  {
    if ledger + a == ledger + b {
      forall op
        ensures op in a <==> op in b
      {
        assert op in ledger + a <==> op in ledger + b;
      }
    }
  }

  /** However a branch was reached, with or without reorganisations on the way,
      the wallet's coins are those of scanning it from scratch, as long as
      nothing was pending in either run or nothing is hidden on the branch. */
  lemma ReorgIsScratch(below: seq<Block>, events: seq<Event>, scratch: seq<Event>, a: ScanState, b: ScanState,
      mine: set<Script>)
    requires ValidBlocks(below) && Quiet(below, |below|, mine)
    requires Reaches(below, events, a, mine) && Reaches(below, scratch, b, mine) && a.blocks == b.blocks
    requires (forall ev :: ev in events + scratch ==> NoPending(ev))
             || (forall h, op :: |below| <= h < |a.blocks| ==> !HidesSpend(a.blocks, h, op, mine))
    ensures Unspent(TxsOf(a.rows), mine) == Unspent(TxsOf(b.rows), mine)
    ensures (forall h, op :: |below| <= h < |a.blocks| ==> !HidesSpend(a.blocks, h, op, mine)) ==>
              Unspent(TxsOf(a.rows), mine) == Watched(Utxo(AllTxs(a.blocks)), mine)
  {
    hide ValidBlocks, Quiet, Covers, HidesSpend, Reaches, NoPending, Unspent;
    RunCovers(below, events, a, mine);
    RunCovers(below, scratch, b, mine);
    if forall h, op :: |below| <= h < |a.blocks| ==> !HidesSpend(a.blocks, h, op, mine) {
      BalanceExact(a.blocks, |below|, a.rows, mine);
      BalanceExact(b.blocks, |below|, b.rows, mine);
    } else {
      SameStored(below, events, a, mine);
      SameStored(below, scratch, b, mine);
      SameRowsSpend(a.blocks, |below|, a.rows, b.rows, mine);
    }
  }

  /** The rows hold exactly the transactions that can be told from the blocks below their own. */
  ghost predicate StoresMust(blocks: seq<Block>, from: nat, rows: seq<TxRow>, mine: set<Script>) {
    forall h, tx :: from <= h < |blocks| && tx in blocks[h] ==> (HasTx(rows, tx) <==> MustStore(blocks, h, tx, mine))
  }

  lemma SameStored(below: seq<Block>, events: seq<Event>, st: ScanState, mine: set<Script>)
    requires ValidBlocks(below) && Quiet(below, |below|, mine)
    requires Reaches(below, events, st, mine) && forall ev :: ev in events ==> NoPending(ev)
    ensures StoresMust(st.blocks, |below|, st.rows, mine)
  {
    hide ValidBlocks, Quiet, Reaches, MustStore, HasTx, NoPending;
    RunSeen(below, events, st, mine);
    RunFinds(below, events, st, mine);
  }

  lemma SameRowsSpend(blocks: seq<Block>, from: nat, a: seq<TxRow>, b: seq<TxRow>, mine: set<Script>)
    requires ValidBlocks(blocks) && Quiet(blocks, from, mine)
    requires Covers(blocks, from, a, mine) && Covers(blocks, from, b, mine)
    requires StoresMust(blocks, from, a, mine) && StoresMust(blocks, from, b, mine)
    ensures Unspent(TxsOf(a), mine) == Unspent(TxsOf(b), mine)
  {
    hide ValidBlocks, Quiet, Covers, StoresMust, CoinMap, AllIns;
    StoredCoins(blocks, from, a, mine);
    StoredCoins(blocks, from, b, mine);
    SpentToo(blocks, from, a, b, mine);
    SpentToo(blocks, from, b, a, mine);
  }

  lemma SpentToo(blocks: seq<Block>, from: nat, a: seq<TxRow>, b: seq<TxRow>, mine: set<Script>)
    requires ValidBlocks(blocks) && Covers(blocks, from, a, mine) && Covers(blocks, from, b, mine)
    requires StoresMust(blocks, from, a, mine) && StoresMust(blocks, from, b, mine)
    ensures Spent(TxsOf(a)) <= Spent(TxsOf(b))
  {
    RowsDistinct(blocks, from, b, mine);
    hide ValidBlocks, MustStore, AllIns;
    forall op | op in Spent(TxsOf(a))
      ensures op in Spent(TxsOf(b))
    {
      AllInsMember(TxsOf(a), op);
      AllInsMember(TxsOf(b), op);
      var n :| 0 <= n < |a| && op in TxsOf(a)[n].ins;
      var tx := a[n].tx;
      assert tx in blocks[a[n].height] && HasTx(a, tx);
      assert HasTx(b, tx) && tx in TxsOf(b);
    }
  }

  /** On a chain spending no outpoint twice, and whatever was pending, the two
      keep the same coins exactly when the same ones are hidden to both. */
  lemma ReorgAgreesIff(below: seq<Block>, events: seq<Event>, scratch: seq<Event>, a: ScanState, b: ScanState,
      mine: set<Script>)
    requires ValidBlocks(below) && Quiet(below, |below|, mine)
    requires Reaches(below, events, a, mine) && Reaches(below, scratch, b, mine) && a.blocks == b.blocks
    requires NoDoubleSpend(AllTxs(a.blocks))
    ensures Unspent(TxsOf(a.rows), mine) == Unspent(TxsOf(b.rows), mine) <==>
            forall op :: HiddenIn(a, |below|, op, mine) <==> HiddenIn(b, |below|, op, mine)
  {
    hide ValidBlocks, Quiet, Covers, Reaches, Unspent, Missed, HiddenIn, NoDoubleSpend;
    RunCovers(below, events, a, mine);
    RunCovers(below, scratch, b, mine);
    SameButMissed(a.blocks, |below|, a.rows, b.rows, mine);
    MissedIffHidden(below, events, a, mine);
    MissedIffHidden(below, scratch, b, mine);
  }

  // An example: a block holding a payment to the wallet and its spending.

  const PAID: Script := [0]
  const OTHER: Script := [1]
  const PAYMENT := Tx(1, [OutPoint(9, 0)], [TxOut(5, PAID)])
  const SPENDING := Tx(2, [OutPoint(1, 0)], [TxOut(5, OTHER)])

  lemma ExampleRows()
    ensures Process([], [PAYMENT, SPENDING], {}, {PAID}, 0, 7) == [TxRow(PAYMENT, 0, 7)]
  {
    var txs := [PAYMENT, SPENDING];
    assert txs[..1] == [PAYMENT] && [PAYMENT][..0] == [];
    assert PAID[0] != OTHER[0];
    assert !Relevant(SPENDING, {}, {PAID}) by {
      assert SPENDING.outs[0].script == OTHER;
    }
    assert Relevant(PAYMENT, {}, {PAID}) by {
      assert PAYMENT.outs[0].script in {PAID};
    }
    assert Process([], [PAYMENT], {}, {PAID}, 0, 7) == Save([], TxRow(PAYMENT, 0, 7));
  }

  lemma ExampleCoins(txs: seq<Tx>)
    requires txs == [PAYMENT] || txs == [PAYMENT, SPENDING]
    ensures CoinMap(txs, {PAID}) == map[OutPoint(1, 0) := 5]
    ensures AllIns(txs) == if |txs| == 1 then [OutPoint(9, 0)] else [OutPoint(9, 0), OutPoint(1, 0)]
  {
    var one := [PAYMENT];
    FirstCoins(one);
    if |txs| == 2 {
      assert txs[..1] == one;
      assert PAID[0] != OTHER[0];
      assert CoinsOf(SPENDING, 1, {PAID}) == map[];
    }
  }

  lemma FirstCoins(txs: seq<Tx>)
    requires txs == [PAYMENT]
    ensures CoinMap(txs, {PAID}) == map[OutPoint(1, 0) := 5] && AllIns(txs) == [OutPoint(9, 0)]
  {
    assert txs[..0] == [];
    assert CoinsOf(PAYMENT, 1, {PAID}) == map[OutPoint(1, 0) := 5];
  }

  lemma ExampleValid(blocks: seq<Block>)
    requires blocks == [[PAYMENT, SPENDING]]
    ensures AllTxs(blocks) == [PAYMENT, SPENDING]
    ensures ValidBlocks(blocks)
  {
    assert blocks[..0] == [];
    assert AllTxs(blocks) == blocks[0];
  }

  lemma ExampleFilter(blocks: seq<Block>)
    requires blocks == [[PAYMENT, SPENDING]]
    ensures FilterComplete(blocks, 0, {PAID}, {PAID})
  {
  }

  lemma ExampleMatched(txs: seq<Tx>)
    requires txs == [PAYMENT, SPENDING]
    ensures Next(Unscanned([]), BlockEvent(txs, 7, {PAID}, []), {PAID}) == ScanState([txs], [TxRow(PAYMENT, 0, 7)], [Some({})])
  {
    hide Process, CoinMap;
    ExampleRows();
    var filter := {PAID};
    assert PAID in filter * {PAID};
    NoCoins();
    assert [] + [txs] == [txs];
  }

  lemma NoCoins()
    ensures CoinMap(TxsOf([]) + [], {PAID}).Keys == {}
  {
    assert TxsOf([]) + [] == [];
  }

  lemma ExampleBalance(txs: seq<Tx>)
    requires txs == [PAYMENT] || txs == [PAYMENT, SPENDING]
    ensures Sum(Unspent(txs, {PAID})) == if |txs| == 1 then 5 else 0
  {
    hide CoinMap, AllIns, Sum;
    var coin := OutPoint(1, 0);
    ExampleCoins(txs);
    SumSingle(coin, 5);
    if |txs| == 1 {
      assert Unspent(txs, {PAID}) == map[coin := 5];
    } else {
      assert coin in Spent(txs);
      assert Unspent(txs, {PAID}) == map[];
    }
  }

  lemma SumSingle(op: OutPoint, v: int)
    ensures Sum(map[op := v]) == v
    ensures Sum(map[]) == 0
  {
    SumRemove(map[op := v], op);
    assert map[op := v] - {op} == map[];
  }

  /** The scan keeps the payment and never learns of the spending: it counts a
      coin the ledger no longer has. */
  lemma HiddenSpendExample(block: Block, ev: Event)
    requires block == [PAYMENT, SPENDING] && ev == BlockEvent(block, 7, {PAID}, [])
    ensures Allowed(Unscanned([]), ev, 0, {PAID})
    ensures var st := Next(Unscanned([]), ev, {PAID});
            && Sum(Unspent(TxsOf(st.rows), {PAID})) == 5
            && Sum(Watched(Utxo(AllTxs(st.blocks)), {PAID})) == 0
  {
    hide Process, CoinMap, AllIns, Sum, FilterComplete, Watched, Utxo, Unspent, Next;
    var blocks := [block];
    ExampleValid(blocks);
    ExampleFilter(blocks);
    ExampleMatched(block);
    ExampleBalance([PAYMENT]);
    ExampleBalance(block);
    UtxoIsUnspent(block, {PAID});
    assert [] + [block] == blocks;
    assert TxsOf([TxRow(PAYMENT, 0, 7)]) == [PAYMENT];
  }
}
