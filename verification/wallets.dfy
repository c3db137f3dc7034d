/**
 The wallet state rebuilt from the stored transactions: its coins, balances
 and history (internal/sync/wallet.go, internal/sync/history.go) and the
 lifetime statistics over it (internal/gui/stats.go).
 */
module Wallets {
  import opened Basics
  import opened Sorting
  import opened Transactions
  import opened Ledger

  /** One watched wallet output script. */
  datatype WatchScript = WatchScript(address: Address, path: string, script: Script)

  /** One stored confirmed transaction, its raw form decoded. */
  datatype TxRow = TxRow(tx: Tx, height: int, blockHash: Hash)

  /** One stored unconfirmed transaction. */
  datatype PendingRow = PendingRow(tx: Tx, seenAt: int)

  datatype Coin = Coin(
    outPoint: OutPoint, value: int, pkScript: Script, address: Address, path: string, confirmed: bool, time: int)

  datatype WalletTx = WalletTx(txid: Hash, time: int, confirmed: bool, net: int, fee: int, outputsMine: seq<bool>)

  datatype Stats = Stats(received: int, sent: int, fees: int, txs: nat, coins: nat, unspent: int)

  function TxsOf(rows: seq<TxRow>): (txs: seq<Tx>)
    ensures |txs| == |rows|
  {
    seq(|rows|, i requires 0 <= i < |rows| => rows[i].tx)
  }

  function PendingTxs(rows: seq<PendingRow>): (txs: seq<Tx>)
    ensures |txs| == |rows|
  {
    seq(|rows|, i requires 0 <= i < |rows| => rows[i].tx)
  }

  /** The script index finds every watched script and nothing else. */
  ghost predicate IndexOk(scripts: seq<WatchScript>, index: map<Script, nat>) {
    && (forall s :: s in index ==> index[s] < |scripts| && scripts[index[s]].script == s)
    && (forall i :: 0 <= i < |scripts| ==> scripts[i].script in index)
  }

  // ------------------------------------------------------------------ coins

  /** The wallet coins among the first n outputs of a transaction. */
  function TxCoins(tx: Tx, n: nat, scripts: seq<WatchScript>, index: map<Script, nat>, confirmed: bool, time: int): map<OutPoint, Coin>
    requires n <= |tx.outs|
    requires IndexOk(scripts, index)
  {
    if n == 0 then map[]
    else
      var rest := TxCoins(tx, n - 1, scripts, index, confirmed, time);
      var out := tx.outs[n - 1];
      var op := OutPoint(tx.id, n - 1);
      if out.script in index then
        var w := scripts[index[out.script]];
        rest[op := Coin(op, out.value, out.script, w.address, w.path, confirmed, time)]
      else rest
  }

  /** Every wallet coin the transactions make, the first of them confirmed. */
  function WalletCoins(txs: seq<Tx>, times: seq<int>, confirmed: nat, scripts: seq<WatchScript>,
      index: map<Script, nat>): map<OutPoint, Coin>
    requires |txs| <= |times|
    requires IndexOk(scripts, index)
  {
    if txs == [] then map[]
    else
      var n := |txs| - 1;
      WalletCoins(txs[..n], times, confirmed, scripts, index)
      + TxCoins(txs[n], |txs[n].outs|, scripts, index, n < confirmed, times[n])
  }

  lemma {:induction false} TxCoinsMatch(tx: Tx, n: nat, scripts: seq<WatchScript>, index: map<Script, nat>,
      confirmed: bool, time: int)
    requires n <= |tx.outs| && IndexOk(scripts, index)
    ensures TxCoins(tx, n, scripts, index, confirmed, time).Keys == CoinsOf(tx, n, index.Keys).Keys
    ensures forall op :: op in TxCoins(tx, n, scripts, index, confirmed, time) ==>
              && TxCoins(tx, n, scripts, index, confirmed, time)[op].value == CoinsOf(tx, n, index.Keys)[op]
              && TxCoins(tx, n, scripts, index, confirmed, time)[op].outPoint == op
  {
    if n > 0 {
      TxCoinsMatch(tx, n - 1, scripts, index, confirmed, time);
    }
  }

  /** The coins the wallet keeps are the ledger's, value for value. */
  lemma {:induction false} WalletCoinsMatch(txs: seq<Tx>, times: seq<int>, confirmed: nat, scripts: seq<WatchScript>,
      index: map<Script, nat>)
    requires |txs| <= |times| && IndexOk(scripts, index)
    ensures WalletCoins(txs, times, confirmed, scripts, index).Keys == CoinMap(txs, index.Keys).Keys
    ensures forall op :: op in WalletCoins(txs, times, confirmed, scripts, index) ==>
              && WalletCoins(txs, times, confirmed, scripts, index)[op].value == CoinMap(txs, index.Keys)[op]
              && WalletCoins(txs, times, confirmed, scripts, index)[op].outPoint == op
  {
    if txs != [] {
      var n := |txs| - 1;
      WalletCoinsMatch(txs[..n], times, confirmed, scripts, index);
      TxCoinsMatch(txs[n], |txs[n].outs|, scripts, index, n < confirmed, times[n]);
    }
  }

  /** The wallet coins none of the transactions spends. */
  ghost function UnspentCoins(txs: seq<Tx>, times: seq<int>, confirmed: nat, scripts: seq<WatchScript>,
      index: map<Script, nat>): map<OutPoint, Coin>
    requires |txs| <= |times| && IndexOk(scripts, index)
  {
    WalletCoins(txs, times, confirmed, scripts, index) - Spent(txs)
  }

  predicate ValueAtLeast(a: Coin, b: Coin) { a.value >= b.value }

  /** The list holds each of the coins once and nothing else. */
  ghost predicate ListsOnce(list: seq<Coin>, coins: map<OutPoint, Coin>) {
    && (forall i :: 0 <= i < |list| ==> list[i].outPoint in coins && coins[list[i].outPoint] == list[i])
    && (forall op :: op in coins ==> exists i :: 0 <= i < |list| && list[i].outPoint == op)
    && (forall i, j :: 0 <= i < j < |list| ==> list[i].outPoint != list[j].outPoint)
  }

  ghost function SumValues(list: seq<Coin>): int {
    if list == [] then 0 else SumValues(list[..|list| - 1]) + list[|list| - 1].value
  }

  ghost function Values(coins: map<OutPoint, Coin>): map<OutPoint, int> {
    map op | op in coins :: coins[op].value
  }

  lemma ListsOncePrefix(list: seq<Coin>, coins: map<OutPoint, Coin>)
    requires ListsOnce(list, coins) && list != []
    ensures ListsOnce(list[..|list| - 1], coins - {list[|list| - 1].outPoint})
  {
    var n := |list| - 1;
    forall op | op in coins && op != list[n].outPoint
      ensures exists i :: 0 <= i < n && list[..n][i].outPoint == op
    {
      var i :| 0 <= i < |list| && list[i].outPoint == op;
      assert list[..n][i].outPoint == op;
    }
  }

  /** A list of coins, each once, is worth what the coins are worth. */
  lemma {:induction false} ListedValue(list: seq<Coin>, coins: map<OutPoint, Coin>)
    requires ListsOnce(list, coins)
    ensures SumValues(list) == Sum(Values(coins))
  {
    if list == [] {
      assert coins == map[];
      assert Values(coins) == map[];
    } else {
      var op := list[|list| - 1].outPoint;
      assert op in coins && coins[op].value == list[|list| - 1].value;
      ListsOncePrefix(list, coins);
      hide ListsOnce;
      ListedValue(list[..|list| - 1], coins - {op});
      SumRemove(Values(coins), op);
      assert Values(coins) - {op} == Values(coins - {op});
    }
  }

  // ---------------------------------------------------------------- balances

  /** The value of the coins left: collects every wallet output, then takes out
      whatever is spent. */
  method UnspentValue(txs: seq<Tx>, mine: set<Script>) returns (sum: int)
    ensures sum == Sum(Unspent(txs, mine))
  {
    var coins: map<OutPoint, int> := map[];
    for n := 0 to |txs|
      invariant coins == CoinMap(txs[..n], mine)
    {
      coins := AddOutputs(coins, txs[n], mine);
      assert txs[..n + 1][..n] == txs[..n];
    }
    assert txs[..|txs|] == txs;
    coins := DeleteSpent(coins, txs);
    sum := SumOf(coins);
  }

  method AddOutputs(coins: map<OutPoint, int>, tx: Tx, mine: set<Script>) returns (all: map<OutPoint, int>)
    ensures all == coins + CoinsOf(tx, |tx.outs|, mine)
  {
    all := coins;
    for i := 0 to |tx.outs|
      invariant all == coins + CoinsOf(tx, i, mine)
    {
      if tx.outs[i].script in mine {
        all := all[OutPoint(tx.id, i) := tx.outs[i].value];
      }
    }
  }

  /** Adds up the values, in whatever order the map is walked. */
  method SumOf(coins: map<OutPoint, int>) returns (sum: int)
    ensures sum == Sum(coins)
  {
    sum := 0;
    var left := coins;
    while left != map[]
      invariant sum + Sum(left) == Sum(coins)
      decreases |left|
    {
      var op :| op in left;
      SumRemove(left, op);
      sum := sum + left[op];
      left := left - {op};
    }
  }

  /** Deletes every outpoint a transaction spends. */
  method DeleteSpent<V>(coins: map<OutPoint, V>, txs: seq<Tx>) returns (left: map<OutPoint, V>)
    ensures left == coins - Spent(txs)
  {
    left := coins;
    for n := 0 to |txs|
      invariant left == coins - Spent(txs[..n])
    {
      var ins := txs[n].ins;
      ghost var before := left;
      for i := 0 to |ins|
        invariant left == before - set op | op in ins[..i]
      {
        assert ins[..i + 1] == ins[..i] + [ins[i]];
        left := left - {ins[i]};
      }
      assert ins[..|ins|] == ins;
      assert txs[..n + 1][..n] == txs[..n];
      assert Spent(txs[..n + 1]) == Spent(txs[..n]) + set op | op in ins;
    }
    assert txs[..|txs|] == txs;
  }

  /** The confirmed balance, and what the unconfirmed transactions change of it. */
  method ComputeBalance(confirmed: seq<Tx>, unconfirmed: seq<Tx>, mine: set<Script>)
    returns (settled: int, pending: int)
    ensures settled == Sum(Unspent(confirmed, mine))
    ensures settled + pending == Sum(Unspent(confirmed + unconfirmed, mine))
  {
    settled := UnspentValue(confirmed, mine);
    var all := UnspentValue(confirmed + unconfirmed, mine);
    pending := all - settled;
  }

  // ----------------------------------------------------------------- history

  /** The transactions by id; of two with one id, the later. */
  function ById(txs: seq<Tx>): map<Hash, Tx> {
    if txs == [] then map[] else ById(txs[..|txs| - 1])[txs[|txs| - 1].id := txs[|txs| - 1]]
  }

  const MAX_PREV_OUT_INDEX := 0xffff_ffff

  /** Of an input: whether it takes from the wallet, and how much it takes, 0 if
      the transaction it spends is not among the known ones. */
  function InputOf(op: OutPoint, byId: map<Hash, Tx>, mine: set<Script>): (bool, int) {
    if op.index == MAX_PREV_OUT_INDEX && op.hash == ZERO_HASH then (false, 0)
    else if op.hash in byId && op.index < |byId[op.hash].outs| then
      var out := byId[op.hash].outs[op.index];
      (out.script in mine, out.value)
    else (false, 0)
  }

  /** What the inputs take from the wallet, and what they spend in all as far as known. */
  function MineIn(ins: seq<OutPoint>, byId: map<Hash, Tx>, mine: set<Script>): int {
    if ins == [] then 0
    else
      var (isMine, value) := InputOf(ins[|ins| - 1], byId, mine);
      MineIn(ins[..|ins| - 1], byId, mine) + if isMine then value else 0
  }

  function KnownIn(ins: seq<OutPoint>, byId: map<Hash, Tx>, mine: set<Script>): int {
    if ins == [] then 0 else KnownIn(ins[..|ins| - 1], byId, mine) + InputOf(ins[|ins| - 1], byId, mine).1
  }

  predicate Funded(ins: seq<OutPoint>, byId: map<Hash, Tx>, mine: set<Script>) {
    forall i :: 0 <= i < |ins| ==> InputOf(ins[i], byId, mine).0
  }

  function TotalOut(outs: seq<TxOut>): int {
    if outs == [] then 0 else TotalOut(outs[..|outs| - 1]) + outs[|outs| - 1].value
  }

  function OutputsMine(outs: seq<TxOut>, mine: set<Script>): seq<bool> {
    seq(|outs|, i requires 0 <= i < |outs| => outs[i].script in mine)
  }

  /** The history entry of a transaction. */
  function Entry(tx: Tx, time: int, confirmed: bool, byId: map<Hash, Tx>, mine: set<Script>): WalletTx {
    WalletTx(
      tx.id, time, confirmed,
      PaidTo(tx, |tx.outs|, mine) - MineIn(tx.ins, byId, mine),
      if Funded(tx.ins, byId, mine) then KnownIn(tx.ins, byId, mine) - TotalOut(tx.outs) else 0,
      OutputsMine(tx.outs, mine))
  }

  function Entries(txs: seq<Tx>, times: seq<int>, confirmed: nat, byId: map<Hash, Tx>, mine: set<Script>): seq<WalletTx>
    requires |txs| <= |times|
  {
    seq(|txs|, n requires 0 <= n < |txs| => Entry(txs[n], times[n], n < confirmed, byId, mine))
  }

  /** Unconfirmed before confirmed, then the newest first. */
  predicate NewerFirst(a: WalletTx, b: WalletTx) {
    if a.confirmed != b.confirmed then !a.confirmed else a.time >= b.time
  }

  method IndexById(txs: seq<Tx>) returns (byId: map<Hash, Tx>)
    ensures byId == ById(txs)
  {
    byId := map[];
    for n := 0 to |txs|
      invariant byId == ById(txs[..n])
    {
      byId := byId[txs[n].id := txs[n]];
      assert txs[..n + 1][..n] == txs[..n];
    }
    assert txs[..|txs|] == txs;
  }

  method BuildHistory(txs: seq<Tx>, times: seq<int>, confirmed: nat, mine: set<Script>) returns (history: seq<WalletTx>)
    requires |txs| <= |times|
    ensures history == Sort(NewerFirst, Entries(txs, times, confirmed, ById(txs), mine))
  {
    hide Sort, Entry, ById;
    var byId := IndexById(txs);
    ghost var all := Entries(txs, times, confirmed, byId, mine);
    var out: seq<WalletTx> := [];
    for n := 0 to |txs|
      invariant out == all[..n]
    {
      var entry := BuildEntry(txs[n], times[n], n < confirmed, byId, mine);
      out := out + [entry];
    }
    assert all[..|txs|] == all;
    history := Sort(NewerFirst, out);
  }

  method BuildEntry(tx: Tx, time: int, confirmed: bool, byId: map<Hash, Tx>, mine: set<Script>)
    returns (entry: WalletTx)
    ensures entry == Entry(tx, time, confirmed, byId, mine)
  {
    hide MineIn, KnownIn, Funded, OutputsMine, PaidTo, TotalOut;
    var spent, fee, funded := SumInputs(tx.ins, byId, mine);
    var received, total, outputs := SumOutputs(tx, mine);
    fee := fee - total;
    entry := WalletTx(tx.id, time, confirmed, received - spent, if funded then fee else 0, outputs);
  }

  /** The wallet's part of the inputs, their known value, and whether all are the wallet's. */
  method SumInputs(ins: seq<OutPoint>, byId: map<Hash, Tx>, mine: set<Script>)
    returns (spent: int, known: int, funded: bool)
    ensures spent == MineIn(ins, byId, mine) && known == KnownIn(ins, byId, mine) && funded == Funded(ins, byId, mine)
  {
    hide InputOf;
    spent, known, funded := 0, 0, true;
    for i := 0 to |ins|
      invariant spent == MineIn(ins[..i], byId, mine)
      invariant known == KnownIn(ins[..i], byId, mine)
      invariant funded == Funded(ins[..i], byId, mine)
    {
      var (isMine, value) := InputOf(ins[i], byId, mine);
      assert ins[..i + 1][..i] == ins[..i];
      funded := funded && isMine;
      known := known + value;
      if isMine {
        spent := spent + value;
      }
    }
    assert ins[..|ins|] == ins;
  }

  /** The wallet's part of the outputs, their whole value, and which are the wallet's. */
  method SumOutputs(tx: Tx, mine: set<Script>) returns (received: int, total: int, outputs: seq<bool>)
    ensures received == PaidTo(tx, |tx.outs|, mine) && total == TotalOut(tx.outs) && outputs == OutputsMine(tx.outs, mine)
  {
    received, total, outputs := 0, 0, [];
    for i := 0 to |tx.outs|
      invariant received == PaidTo(tx, i, mine)
      invariant total == TotalOut(tx.outs[..i])
      invariant outputs == OutputsMine(tx.outs, mine)[..i]
    {
      var o := tx.outs[i];
      assert tx.outs[..i + 1][..i] == tx.outs[..i];
      outputs := outputs + [o.script in mine];
      total := total + o.value;
      if o.script in mine {
        received := received + o.value;
      }
    }
    assert tx.outs[..|tx.outs|] == tx.outs;
  }

  lemma {:induction false} ByIdMember(txs: seq<Tx>, id: Hash)
    requires DistinctIds(txs)
    ensures id in ById(txs) <==> exists n :: 0 <= n < |txs| && txs[n].id == id
    ensures forall n :: 0 <= n < |txs| && txs[n].id == id ==> id in ById(txs) && ById(txs)[id] == txs[n]
  {
    if txs != [] {
      var last := |txs| - 1;
      ByIdMember(txs[..last], id);
      if n :| 0 <= n < last && txs[n].id == id {
        assert txs[..last][n].id == id;
      }
    }
  }

  /** The history finds the value of an input exactly when it spends a wallet coin. */
  lemma InputIsCoin(txs: seq<Tx>, op: OutPoint, mine: set<Script>)
    requires DistinctIds(txs)
    ensures var (isMine, value) := InputOf(op, ById(txs), mine);
            && isMine == (op in CoinMap(txs, mine))
            && (isMine ==> value == CoinMap(txs, mine)[op])
  {
    ByIdMember(txs, op.hash);
    CoinMapMember(txs, mine, op);
    if op.hash in ById(txs) {
      var n :| 0 <= n < |txs| && txs[n].id == op.hash;
      assert ById(txs)[op.hash] == txs[n];
    }
  }

  lemma {:induction false} MineInIsTaken(txs: seq<Tx>, ins: seq<OutPoint>, mine: set<Script>)
    requires DistinctIds(txs)
    ensures MineIn(ins, ById(txs), mine) == Taken(CoinMap(txs, mine), ins)
  {
    if ins != [] {
      MineInIsTaken(txs, ins[..|ins| - 1], mine);
      InputIsCoin(txs, ins[|ins| - 1], mine);
    }
  }

  // -------------------------------------------------------------- statistics

  /** What the statistics count of one entry: received, sent and fees. */
  function Share(t: WalletTx): (int, int, int) {
    if t.fee > 0 then (0, -t.net - t.fee, t.fee)
    else if t.net > 0 then (t.net, 0, 0)
    else (0, -t.net, 0)
  }

  function CountMine(outputs: seq<bool>): nat {
    if outputs == [] then 0 else CountMine(outputs[..|outputs| - 1]) + if outputs[|outputs| - 1] then 1 else 0
  }

  function StatsOf(txs: seq<WalletTx>, unspent: int): Stats {
    if txs == [] then Stats(0, 0, 0, 0, 0, unspent)
    else
      var t := txs[|txs| - 1];
      var s := StatsOf(txs[..|txs| - 1], unspent);
      var (received, sent, fee) := Share(t);
      Stats(s.received + received, s.sent + sent, s.fees + fee, s.txs + 1, s.coins + CountMine(t.outputsMine), unspent)
  }

  method ComputeStats(txs: seq<WalletTx>, unspent: int) returns (stats: Stats)
    ensures stats == StatsOf(txs, unspent)
  {
    var received, sent, fees, coins := 0, 0, 0, 0;
    for n := 0 to |txs|
      invariant Stats(received, sent, fees, n, coins, unspent) == StatsOf(txs[..n], unspent)
    {
      var t := txs[n];
      assert txs[..n + 1][..n] == txs[..n];
      ghost var before := coins;
      for i := 0 to |t.outputsMine|
        invariant coins == before + CountMine(t.outputsMine[..i])
      {
        assert t.outputsMine[..i + 1][..i] == t.outputsMine[..i];
        if t.outputsMine[i] {
          coins := coins + 1;
        }
      }
      assert t.outputsMine[..|t.outputsMine|] == t.outputsMine;
      if t.fee > 0 {
        fees := fees + t.fee;
        sent := sent + (-t.net - t.fee);
      } else if t.net > 0 {
        received := received + t.net;
      } else {
        sent := sent - t.net;
      }
    }
    assert txs[..|txs|] == txs;
    stats := Stats(received, sent, fees, |txs|, coins, unspent);
  }

  /** What one more entry adds: one with a fee what it pays to others and the fee,
      one without a fee its net amount, as received if positive and as sent if negative. */
  lemma EntryAdds(entries: seq<WalletTx>, t: WalletTx, unspent: int)
    ensures var before, after := StatsOf(entries, unspent), StatsOf(entries + [t], unspent);
            && after.received == before.received + (if t.fee > 0 then 0 else Max(t.net, 0))
            && after.sent == before.sent + (if t.fee > 0 then -t.net - t.fee else Max(-t.net, 0))
            && after.fees == before.fees + (if t.fee > 0 then t.fee else 0)
            && after.txs == before.txs + 1 && after.unspent == unspent
            && after.coins == before.coins + |set i | 0 <= i < |t.outputsMine| && t.outputsMine[i]|
  {
    assert (entries + [t])[..|entries|] == entries;
    MineCounted(t.outputsMine);
  }

  lemma {:induction false} MineCounted(outputs: seq<bool>)
    ensures CountMine(outputs) == |set i | 0 <= i < |outputs| && outputs[i]|
  {
    if outputs != [] {
      var n := |outputs| - 1;
      MineCounted(outputs[..n]);
      var rest := set i | 0 <= i < n && outputs[..n][i];
      var all := set i | 0 <= i < |outputs| && outputs[i];
      assert all == if outputs[n] then rest + {n} else rest by {
        assert forall i :: i in all <==> i in rest || (i == n && outputs[n]);
      }
    }
  }

  /** The sum of what came in: the positive net amounts of entries without a fee. */
  function Incoming(entries: seq<WalletTx>): nat {
    if entries == [] then 0
    else
      var t := entries[|entries| - 1];
      Incoming(entries[..|entries| - 1]) + if t.fee <= 0 && t.net > 0 then t.net else 0
  }

  lemma {:induction false} ReceivedIsIncoming(entries: seq<WalletTx>, unspent: int)
    ensures StatsOf(entries, unspent).received == Incoming(entries) >= 0
    ensures StatsOf(entries, unspent).txs == |entries| && StatsOf(entries, unspent).unspent == unspent
  {
    hide Share, CountMine;
    if entries != [] {
      var n := |entries| - 1;
      ReceivedIsIncoming(entries[..n], unspent);
      EntryAdds(entries[..n], entries[n], unspent);
      assert entries == entries[..n] + [entries[n]];
    }
  }

  function SumEntries(entries: seq<WalletTx>): int {
    if entries == [] then 0 else SumEntries(entries[1..]) + entries[0].net
  }

  lemma {:induction false} SumEntriesAppend(a: seq<WalletTx>, b: seq<WalletTx>)
    ensures SumEntries(a + b) == SumEntries(a) + SumEntries(b)
  {
    if a == [] {
      assert a + b == b;
    } else {
      assert (a + b)[1..] == a[1..] + b;
      SumEntriesAppend(a[1..], b);
    }
  }

  lemma {:induction false} SumEntriesInsert(x: WalletTx, s: seq<WalletTx>)
    ensures SumEntries(Insert(NewerFirst, x, s)) == x.net + SumEntries(s)
  {
    if s == [] || NewerFirst(x, s[0]) {
      assert ([x] + s)[1..] == s;
    } else {
      SumEntriesInsert(x, s[1..]);
      assert Insert(NewerFirst, x, s)[1..] == Insert(NewerFirst, x, s[1..]);
    }
  }

  lemma {:induction false} SumEntriesSort(s: seq<WalletTx>)
    ensures SumEntries(Sort(NewerFirst, s)) == SumEntries(s)
  {
    if s != [] {
      SumEntriesSort(s[1..]);
      SumEntriesInsert(s[0], Sort(NewerFirst, s[1..]));
    }
  }

  /** Received less sent less fees is the sum of the net amounts. */
  lemma {:induction false} StatsTotal(entries: seq<WalletTx>, unspent: int)
    ensures var s := StatsOf(entries, unspent);
            s.received - s.sent - s.fees == SumEntries(entries)
  {
    if entries != [] {
      var n := |entries| - 1;
      StatsTotal(entries[..n], unspent);
      assert entries == entries[..n] + [entries[n]];
      SumEntriesAppend(entries[..n], [entries[n]]);
    }
  }

  lemma {:induction false} EntriesTotal(txs: seq<Tx>, n: nat, times: seq<int>, confirmed: nat, mine: set<Script>)
    requires n <= |txs| <= |times| && DistinctIds(txs)
    ensures SumEntries(Entries(txs, times, confirmed, ById(txs), mine)[..n]) == SumNet(txs[..n], CoinMap(txs, mine), mine)
  {
    hide Entry, ById, Net;
    if n > 0 {
      var all := Entries(txs, times, confirmed, ById(txs), mine);
      EntriesTotal(txs, n - 1, times, confirmed, mine);
      assert all[..n] == all[..n - 1] + [all[n - 1]];
      SumEntriesAppend(all[..n - 1], [all[n - 1]]);
      assert txs[..n][..n - 1] == txs[..n - 1];
      EntryNet(txs, txs[n - 1], times[n - 1], n - 1 < confirmed, mine);
    }
  }

  lemma EntryNet(txs: seq<Tx>, tx: Tx, time: int, confirmed: bool, mine: set<Script>)
    requires DistinctIds(txs)
    ensures Entry(tx, time, confirmed, ById(txs), mine).net == Net(tx, CoinMap(txs, mine), mine)
  {
    MineInIsTaken(txs, tx.ins, mine);
  }

  /** The four computations agree, but for the value of coins spent twice: the
      statistics over the history, the history's net amounts and the coins left. */
  lemma TotalsAgree(txs: seq<Tx>, times: seq<int>, confirmed: nat, mine: set<Script>, unspent: int)
    requires DistinctIds(txs) && |txs| <= |times|
    ensures var history := Sort(NewerFirst, Entries(txs, times, confirmed, ById(txs), mine));
            var stats := StatsOf(history, unspent);
            && stats.received - stats.sent - stats.fees == SumEntries(history)
            && SumEntries(history) + TakenTwice(CoinMap(txs, mine), AllIns(txs)) == Sum(Unspent(txs, mine))
  {
    var entries := Entries(txs, times, confirmed, ById(txs), mine);
    SumEntriesSort(entries);
    StatsTotal(Sort(NewerFirst, entries), unspent);
    EntriesTotal(txs, |txs|, times, confirmed, mine);
    assert entries[..|txs|] == entries;
    assert txs[..|txs|] == txs;
    Conservation(txs, mine);
  }

  /** With no negative values the history accounts for the coins exactly when
      no wallet coin of any value is spent twice. */
  lemma TotalsAgreeExactly(txs: seq<Tx>, times: seq<int>, confirmed: nat, mine: set<Script>)
    requires DistinctIds(txs) && |txs| <= |times|
    requires forall op :: op in CoinMap(txs, mine) ==> CoinMap(txs, mine)[op] >= 0
    ensures SumEntries(Sort(NewerFirst, Entries(txs, times, confirmed, ById(txs), mine))) == Sum(Unspent(txs, mine)) <==>
            forall i, j :: 0 <= i < j < |AllIns(txs)| && AllIns(txs)[i] == AllIns(txs)[j] ==>
              ValueIn(CoinMap(txs, mine), AllIns(txs)[i]) == 0
  {
    TotalsAgree(txs, times, confirmed, mine, 0);
    TakenTwiceIsZero(CoinMap(txs, mine), AllIns(txs));
  }

  // --------------------------------------------------- what a fee entry counts

  function PaidAway(tx: Tx, n: nat, mine: set<Script>): int
    requires n <= |tx.outs|
  {
    if n == 0 then 0 else PaidAway(tx, n - 1, mine) + if tx.outs[n - 1].script in mine then 0 else tx.outs[n - 1].value
  }

  lemma {:induction false} OutputsSplit(tx: Tx, n: nat, mine: set<Script>)
    requires n <= |tx.outs|
    ensures PaidTo(tx, n, mine) + PaidAway(tx, n, mine) == TotalOut(tx.outs[..n])
  {
    if n > 0 {
      OutputsSplit(tx, n - 1, mine);
      assert tx.outs[..n][..n - 1] == tx.outs[..n - 1];
    }
  }

  lemma {:induction false} FundedInputs(ins: seq<OutPoint>, byId: map<Hash, Tx>, mine: set<Script>)
    requires Funded(ins, byId, mine)
    ensures MineIn(ins, byId, mine) == KnownIn(ins, byId, mine)
  {
    if ins != [] {
      var n := |ins| - 1;
      assert InputOf(ins[n], byId, mine).0;
      assert forall i :: 0 <= i < n ==> ins[..n][i] == ins[i];
      FundedInputs(ins[..n], byId, mine);
    }
  }

  /** A transaction the wallet paid for counts as sent exactly what it pays to
      others, and its fee is what its inputs are worth beyond its outputs. */
  lemma PaymentShare(tx: Tx, time: int, confirmed: bool, byId: map<Hash, Tx>, mine: set<Script>)
    requires Entry(tx, time, confirmed, byId, mine).fee > 0
    ensures Funded(tx.ins, byId, mine)
    ensures Share(Entry(tx, time, confirmed, byId, mine)) ==
            (0, PaidAway(tx, |tx.outs|, mine), KnownIn(tx.ins, byId, mine) - TotalOut(tx.outs))
  {
    FundedInputs(tx.ins, byId, mine);
    OutputsSplit(tx, |tx.outs|, mine);
    assert tx.outs[..|tx.outs|] == tx.outs;
  }

  /** No output is worth less than nothing. */
  predicate Sensible(tx: Tx) {
    forall i :: 0 <= i < |tx.outs| ==> tx.outs[i].value >= 0
  }

  lemma {:induction false} PaidNonNegative(tx: Tx, n: nat, mine: set<Script>)
    requires n <= |tx.outs| && Sensible(tx)
    ensures PaidTo(tx, n, mine) >= 0 && PaidAway(tx, n, mine) >= 0
  {
    if n > 0 {
      PaidNonNegative(tx, n - 1, mine);
    }
  }

  lemma {:induction false} NothingTaken(ins: seq<OutPoint>, byId: map<Hash, Tx>, mine: set<Script>)
    requires forall i :: 0 <= i < |ins| ==> !InputOf(ins[i], byId, mine).0
    ensures MineIn(ins, byId, mine) == 0 && (ins == [] ==> KnownIn(ins, byId, mine) == 0)
  {
    if ins != [] {
      var n := |ins| - 1;
      assert forall i :: 0 <= i < n ==> ins[..n][i] == ins[i];
      NothingTaken(ins[..n], byId, mine);
    }
  }

  /** A transaction that spends no wallet coin adds to what was received exactly
      what it pays the wallet, and nothing to what was sent or paid as fees. */
  lemma IncomingPayment(txs: seq<Tx>, tx: Tx, time: int, confirmed: bool, mine: set<Script>, entries: seq<WalletTx>,
      unspent: int)
    requires DistinctIds(txs) && Sensible(tx)
    requires forall i :: 0 <= i < |tx.ins| ==> tx.ins[i] !in CoinMap(txs, mine)
    ensures var before, after := StatsOf(entries, unspent), StatsOf(entries + [Entry(tx, time, confirmed, ById(txs), mine)], unspent);
            && after.received == before.received + PaidTo(tx, |tx.outs|, mine)
            && after.sent == before.sent && after.fees == before.fees
  {
    hide StatsOf, CoinMap, ById;
    var byId := ById(txs);
    forall i | 0 <= i < |tx.ins|
      ensures !InputOf(tx.ins[i], byId, mine).0
    {
      InputIsCoin(txs, tx.ins[i], mine);
    }
    NothingTaken(tx.ins, byId, mine);
    PaidNonNegative(tx, |tx.outs|, mine);
    OutputsSplit(tx, |tx.outs|, mine);
    assert tx.outs[..|tx.outs|] == tx.outs;
    assert tx.ins != [] ==> !InputOf(tx.ins[0], byId, mine).0;
    EntryAdds(entries, Entry(tx, time, confirmed, byId, mine), unspent);
  }

  /** What was sent is never negative. */
  lemma {:induction false} SentNonNegative(entries: seq<WalletTx>, txs: seq<Tx>, byId: map<Hash, Tx>,
      mine: set<Script>, unspent: int)
    requires |entries| == |txs| && forall n :: 0 <= n < |txs| ==> Sensible(txs[n])
    requires forall n :: 0 <= n < |txs| ==> entries[n] == Entry(txs[n], entries[n].time, entries[n].confirmed, byId, mine)
    ensures StatsOf(entries, unspent).sent >= 0 && StatsOf(entries, unspent).fees >= 0
  {
    hide Share, Entry;
    if entries != [] {
      var n := |entries| - 1;
      SentNonNegative(entries[..n], txs[..n], byId, mine, unspent);
      EntryAdds(entries[..n], entries[n], unspent);
      assert entries == entries[..n] + [entries[n]];
      if entries[n].fee > 0 {
        PaidEntry(txs[n], entries[n].time, entries[n].confirmed, byId, mine);
      }
    }
  }

  /** An entry with a fee is of a transaction whose inputs are all the wallet's,
      and what it took beyond the fee went to others. */
  lemma PaidEntry(tx: Tx, time: int, confirmed: bool, byId: map<Hash, Tx>, mine: set<Script>)
    requires Sensible(tx) && Entry(tx, time, confirmed, byId, mine).fee > 0
    ensures var t := Entry(tx, time, confirmed, byId, mine);
            -t.net - t.fee == PaidAway(tx, |tx.outs|, mine) >= 0
  {
    FundedInputs(tx.ins, byId, mine);
    OutputsSplit(tx, |tx.outs|, mine);
    PaidNonNegative(tx, |tx.outs|, mine);
    assert tx.outs[..|tx.outs|] == tx.outs;
  }

  /** A transaction with none but wallet coins for inputs has as its fee what they
      are worth beyond its outputs, and any other has none. */
  lemma FeeIs(txs: seq<Tx>, tx: Tx, time: int, confirmed: bool, mine: set<Script>)
    requires DistinctIds(txs)
    ensures Entry(tx, time, confirmed, ById(txs), mine).fee ==
            if forall i :: 0 <= i < |tx.ins| ==> tx.ins[i] in CoinMap(txs, mine)
            then Taken(CoinMap(txs, mine), tx.ins) - PaidTo(tx, |tx.outs|, mine) - PaidAway(tx, |tx.outs|, mine) else 0
  {
    hide CoinMap, ById, KnownIn, MineIn, TotalOut, PaidTo, PaidAway;
    forall i | 0 <= i < |tx.ins|
      ensures InputOf(tx.ins[i], ById(txs), mine).0 <==> tx.ins[i] in CoinMap(txs, mine)
    {
      InputIsCoin(txs, tx.ins[i], mine);
    }
    OutputsSplit(tx, |tx.outs|, mine);
    assert tx.outs[..|tx.outs|] == tx.outs;
    if Funded(tx.ins, ById(txs), mine) {
      FundedInputs(tx.ins, ById(txs), mine);
      MineInIsTaken(txs, tx.ins, mine);
    }
  }

  lemma NewerFirstPreorder()
    ensures TotalPreorder(NewerFirst)
  {
  }

  /** The history lists the unconfirmed transactions first and then the confirmed
      ones, either kind from the latest to the earliest, and every one of them. */
  lemma HistoryOrder(entries: seq<WalletTx>)
    ensures var history := Sort(NewerFirst, entries);
            && multiset(history) == multiset(entries)
            && (forall i, j :: 0 <= i < j < |history| && history[i].confirmed ==> history[j].confirmed)
            && (forall i, j :: 0 <= i < j < |history| && history[i].confirmed == history[j].confirmed ==> history[i].time >= history[j].time)
  {
    NewerFirstPreorder();
    SortSorted(NewerFirst, entries);
    hide Sort;
    var history := Sort(NewerFirst, entries);
    assert forall i, j :: 0 <= i < j < |history| ==> NewerFirst(history[i], history[j]);
  }

  /** There is one entry for each transaction, with its id, its time, whether it
      is confirmed, and which of its outputs are the wallet's. */
  lemma EntriesAre(txs: seq<Tx>, times: seq<int>, confirmed: nat, byId: map<Hash, Tx>, mine: set<Script>, n: nat)
    requires n < |txs| <= |times|
    ensures var entries := Entries(txs, times, confirmed, byId, mine);
            && |entries| == |txs| && entries[n].txid == txs[n].id && entries[n].time == times[n] && (entries[n].confirmed <==> n < confirmed)
            && |entries[n].outputsMine| == |txs[n].outs|
            && forall i :: 0 <= i < |txs[n].outs| ==> (entries[n].outputsMine[i] <==> txs[n].outs[i].script in mine)
  {
  }

  /** A wallet coin tells of the output it is: its value and script, the address
      and path of the watched script, and the time and state of its transaction. */
  lemma {:induction false} CoinTells(txs: seq<Tx>, times: seq<int>, confirmed: nat, scripts: seq<WatchScript>,
      index: map<Script, nat>, op: OutPoint) returns (n: nat)
    requires |txs| <= |times| && IndexOk(scripts, index) && op in WalletCoins(txs, times, confirmed, scripts, index)
    ensures n < |txs| && txs[n].id == op.hash && op.index < |txs[n].outs|
    ensures var coin, out := WalletCoins(txs, times, confirmed, scripts, index)[op], txs[n].outs[op.index];
            && coin.outPoint == op && coin.value == out.value && coin.pkScript == out.script
            && coin.time == times[n] && (coin.confirmed <==> n < confirmed)
            && exists w :: w in scripts && w.script == out.script && w.address == coin.address && w.path == coin.path
  {
    var last := |txs| - 1;
    TxCoinTells(txs[last], |txs[last].outs|, scripts, index, last < confirmed, times[last], op);
    if op in TxCoins(txs[last], |txs[last].outs|, scripts, index, last < confirmed, times[last]) {
      n := last;
    } else {
      n := CoinTells(txs[..last], times, confirmed, scripts, index, op);
    }
  }

  lemma {:induction false} TxCoinTells(tx: Tx, n: nat, scripts: seq<WatchScript>, index: map<Script, nat>,
      confirmed: bool, time: int, op: OutPoint)
    requires n <= |tx.outs| && IndexOk(scripts, index)
    ensures var coins := TxCoins(tx, n, scripts, index, confirmed, time);
            && (op in coins <==> op.hash == tx.id && op.index < n && tx.outs[op.index].script in index)
            && (op in coins ==>
                  && coins[op].outPoint == op && coins[op].value == tx.outs[op.index].value && coins[op].pkScript == tx.outs[op.index].script
                  && coins[op].time == time && coins[op].confirmed == confirmed
                  && exists w :: w in scripts && w.script == tx.outs[op.index].script && w.address == coins[op].address && w.path == coins[op].path)
  {
    if n > 0 {
      TxCoinTells(tx, n - 1, scripts, index, confirmed, time, op);
      if tx.outs[n - 1].script in index {
        var w := scripts[index[tx.outs[n - 1].script]];
        assert w in scripts;
      }
    }
  }

  // ---------------------------------------------------------- the wallet state

  /** The ids of the last unconfirmed transactions spending each outpoint. */
  function SpendersOf(txs: seq<Tx>): map<OutPoint, Hash> {
    if txs == [] then map[]
    else
      var tx := txs[|txs| - 1];
      SpendersOf(txs[..|txs| - 1]) + map op | op in tx.ins :: tx.id
  }

  ghost function Ids(txs: seq<Tx>): set<Hash> {
    set i | 0 <= i < |txs| :: txs[i].id
  }

  /** The transaction pays a watched script of the address. */
  predicate PaysAddress(tx: Tx, scripts: seq<WatchScript>, index: map<Script, nat>, address: Address)
    requires IndexOk(scripts, index)
  {
    exists i :: 0 <= i < |tx.outs| && tx.outs[i].script in index && scripts[index[tx.outs[i].script]].address == address
  }

  /** A stored payment to the address at that height. */
  ghost predicate PaidAt(rows: seq<TxRow>, scripts: seq<WatchScript>, index: map<Script, nat>, address: Address,
      height: int)
    requires IndexOk(scripts, index)
  {
    exists n :: 0 <= n < |rows| && rows[n].height == height && PaysAddress(rows[n].tx, scripts, index, address)
  }

  /** The lowest height of a stored payment, for every address with one. */
  ghost predicate FirstPaidOk(rows: seq<TxRow>, scripts: seq<WatchScript>, index: map<Script, nat>,
      firstPaid: map<Address, int>)
    requires IndexOk(scripts, index)
  {
    && (forall a :: a in firstPaid ==> PaidAt(rows, scripts, index, a, firstPaid[a]))
    && (forall n, a :: 0 <= n < |rows| && PaysAddress(rows[n].tx, scripts, index, a) ==> a in firstPaid && firstPaid[a] <= rows[n].height)
  }

  class Wallet {
    var scripts: seq<WatchScript>
    var scriptIndex: map<Script, nat>
    var outpoints: map<OutPoint, Address>
    var confirmedIDs: set<Hash>
    var pendingIDs: set<Hash>
    var pendingSpends: map<OutPoint, Hash>
    var firstPaid: map<Address, int>
    var coins: seq<Coin>
    var history: seq<WalletTx>
    var confirmedBalance: int
    var pendingBalance: int

    ghost predicate Valid()
      reads this
    {
      IndexOk(scripts, scriptIndex)
    }

    ghost function Mine(): set<Script>
      reads this
    {
      scriptIndex.Keys
    }

    /** The state is the one the stored transactions give. */
    ghost predicate Loaded(stored: seq<TxRow>, unconfirmed: seq<PendingRow>)
      requires Valid()
      reads this
    {
      var confirmed, pending := TxsOf(stored), PendingTxs(unconfirmed);
      && FirstPaidOk(stored, scripts, scriptIndex, firstPaid)
      && outpoints.Keys == CoinMap(confirmed + pending, Mine()).Keys
      && confirmedIDs == Ids(confirmed)
      && pendingIDs == Ids(pending)
      && pendingSpends == SpendersOf(pending)
      && confirmedBalance == Sum(Unspent(confirmed, Mine()))
      && confirmedBalance + pendingBalance == Sum(Unspent(confirmed + pending, Mine()))
      && SumValues(coins) == confirmedBalance + pendingBalance
    }

    constructor ()
      ensures Valid() && scripts == []
      ensures Loaded([], [])
    {
      scripts := [];
      scriptIndex := map[];
      outpoints := map[];
      confirmedIDs, pendingIDs := {}, {};
      pendingSpends := map[];
      firstPaid := map[];
      coins := [];
      history := [];
      confirmedBalance, pendingBalance := 0, 0;
    }

    /** Adds a script to the watched ones. */
    method AddScript(w: WatchScript)
      requires Valid()
      modifies this`scripts, this`scriptIndex
      ensures Valid()
      ensures scripts == old(scripts) + [w] && scriptIndex == old(scriptIndex)[w.script := |old(scripts)|]
    {
      scriptIndex := scriptIndex[w.script := |scripts|];
      scripts := scripts + [w];
    }

    /** Rebuilds the state from the stored transactions, the confirmed ones with
        their block times. */
    method Load(stored: seq<TxRow>, pending: seq<PendingRow>, blockTime: int -> int)
      requires Valid()
      modifies this
      ensures Valid() && scripts == old(scripts) && scriptIndex == old(scriptIndex)
      ensures Loaded(stored, pending)
      ensures ListsOnce(coins, UnspentCoins(TxsOf(stored) + PendingTxs(pending), TimesOf(stored, pending, blockTime), |stored|, scripts, scriptIndex))
      ensures forall i, j :: 0 <= i < j < |coins| ==> coins[i].value >= coins[j].value
      ensures history == Sort(NewerFirst, Entries(TxsOf(stored) + PendingTxs(pending), TimesOf(stored, pending, blockTime), |stored|,
                ById(TxsOf(stored) + PendingTxs(pending)), Mine()))
    {
      hide TxsOf, PendingTxs, TimesOf, CoinMap, Unspent, SpendersOf, Entries, ById, UnspentCoins;
      hide Sum, SumValues, ListsOnce, Sorted, Sort, IndexOk, Ids, FirstPaidOk;
      var confirmed, unconfirmed := TxsOf(stored), PendingTxs(pending);
      LoadIds(stored, confirmed, unconfirmed);
      LoadCoins(confirmed + unconfirmed, TimesOf(stored, pending, blockTime), |confirmed|);
      LargestFirst(coins);
      confirmedBalance, pendingBalance := ComputeBalance(confirmed, unconfirmed, scriptIndex.Keys);
    }

    /** What is shown of a loaded wallet agrees: received less sent less fees
        over its history, the net amounts of the history, the two balances and
        the list of its coins, all but for the value of coins spent twice. */
    lemma FiguresAgree(stored: seq<TxRow>, pending: seq<PendingRow>, blockTime: int -> int)
      requires Valid() && Loaded(stored, pending)
      requires var all := TxsOf(stored) + PendingTxs(pending);
               DistinctIds(all) && history == Sort(NewerFirst, Entries(all, TimesOf(stored, pending, blockTime), |stored|, ById(all), Mine()))
      ensures var all, stats := TxsOf(stored) + PendingTxs(pending), StatsOf(history, SumValues(coins));
              && stats.received - stats.sent - stats.fees == SumEntries(history)
              && SumEntries(history) + TakenTwice(CoinMap(all, Mine()), AllIns(all)) == confirmedBalance + pendingBalance == SumValues(coins)
              && (NoDoubleSpend(all) ==> SumEntries(history) == confirmedBalance + pendingBalance)
    {
      hide StatsOf, SumEntries, Sort, Entries, ById, CoinMap, AllIns, TakenTwice, DistinctIds, SumValues, Sum, Unspent;
      var all := TxsOf(stored) + PendingTxs(pending);
      TotalsAgree(all, TimesOf(stored, pending, blockTime), |stored|, Mine(), SumValues(coins));
      if NoDoubleSpend(all) {
        NothingTakenTwice(CoinMap(all, Mine()), AllIns(all));
      }
    }

    method LoadIds(stored: seq<TxRow>, confirmed: seq<Tx>, unconfirmed: seq<Tx>)
      requires Valid()
      modifies this`confirmedIDs, this`pendingIDs, this`pendingSpends, this`firstPaid
      ensures Valid() && FirstPaidOk(stored, scripts, scriptIndex, firstPaid)
      ensures confirmedIDs == Ids(confirmed) && pendingIDs == Ids(unconfirmed) && pendingSpends == SpendersOf(unconfirmed)
    {
      hide IndexOk, Ids, SpendersOf, FirstPaidOk;
      confirmedIDs := IdsOf(confirmed);
      pendingIDs := IdsOf(unconfirmed);
      pendingSpends := CollectSpenders(unconfirmed);
      firstPaid := CollectFirstPaid(stored, scripts, scriptIndex);
    }

    method LoadCoins(txs: seq<Tx>, times: seq<int>, confirmed: nat)
      requires Valid() && |txs| <= |times|
      modifies this`outpoints, this`coins, this`history
      ensures Valid() && outpoints.Keys == CoinMap(txs, scriptIndex.Keys).Keys
      ensures ListsOnce(coins, UnspentCoins(txs, times, confirmed, scripts, scriptIndex)) && Sorted(ValueAtLeast, coins)
      ensures SumValues(coins) == Sum(Unspent(txs, scriptIndex.Keys))
      ensures history == Sort(NewerFirst, Entries(txs, times, confirmed, ById(txs), scriptIndex.Keys))
    {
      hide CoinMap, Unspent, Entries, ById, UnspentCoins, Sum, SumValues, ListsOnce, Sorted, Sort, IndexOk;
      outpoints, coins := CollectUnspent(txs, times, confirmed, scripts, scriptIndex);
      history := BuildHistory(txs, times, confirmed, scriptIndex.Keys);
    }
  }

  lemma LargestFirst(list: seq<Coin>)
    requires Sorted(ValueAtLeast, list)
    ensures forall i, j :: 0 <= i < j < |list| ==> list[i].value >= list[j].value
  {
    assert forall i, j :: 0 <= i < j < |list| ==> ValueAtLeast(list[i], list[j]);
  }

  /** Distinct ids stay so in any order. */
  lemma DistinctInAnyOrder(a: seq<Tx>, b: seq<Tx>)
    requires DistinctIds(a) && multiset(a) == multiset(b)
    ensures DistinctIds(b)
  {
    forall i | 0 <= i < |b|
      ensures b[i] in a
    {
      assert b[i] in multiset(a);
    }
    forall i, j | 0 <= i < j < |b|
      ensures b[i].id != b[j].id
    {
      assert b[i] in a && b[j] in a;
      if b[i].id == b[j].id {
        RepeatedTwice(b, i, j);
        OnceOnly(a, b[i]);
      }
    }
  }

  lemma FirstTx(rows: seq<TxRow>)
    requires rows != []
    ensures TxsOf(rows) == [rows[0].tx] + TxsOf(rows[1..])
    ensures multiset(TxsOf(rows)) == multiset{rows[0].tx} + multiset(TxsOf(rows[1..]))
  {
    assert TxsOf(rows) == [rows[0].tx] + TxsOf(rows[1..]);
  }

  lemma {:induction false} InsertedTxs(before: (TxRow, TxRow) -> bool, x: TxRow, s: seq<TxRow>)
    ensures multiset(TxsOf(Insert(before, x, s))) == multiset{x.tx} + multiset(TxsOf(s))
  {
    hide TxsOf;
    var after := Insert(before, x, s);
    FirstTx(after);
    if s == [] || before(x, s[0]) {
      assert after[1..] == s;
    } else {
      InsertedTxs(before, x, s[1..]);
      FirstTx(s);
      assert after[1..] == Insert(before, x, s[1..]);
    }
  }

  /** Sorting rows only reorders their transactions. */
  lemma {:induction false} SortedTxs(before: (TxRow, TxRow) -> bool, s: seq<TxRow>)
    ensures multiset(TxsOf(Sort(before, s))) == multiset(TxsOf(s))
  {
    hide TxsOf, Insert;
    if s != [] {
      SortedTxs(before, s[1..]);
      InsertedTxs(before, s[0], Sort(before, s[1..]));
      FirstTx(s);
    }
  }

  method IdsOf(txs: seq<Tx>) returns (ids: set<Hash>)
    ensures ids == Ids(txs)
  {
    ids := set i | 0 <= i < |txs| :: txs[i].id;
  }

  method CollectSpenders(txs: seq<Tx>) returns (spenders: map<OutPoint, Hash>)
    ensures spenders == SpendersOf(txs)
  {
    spenders := map[];
    for n := 0 to |txs|
      invariant spenders == SpendersOf(txs[..n])
    {
      spenders := spenders + map op | op in txs[n].ins :: txs[n].id;
      assert txs[..n + 1][..n] == txs[..n];
    }
    assert txs[..|txs|] == txs;
  }

  method CollectFirstPaid(rows: seq<TxRow>, scripts: seq<WatchScript>, index: map<Script, nat>)
    returns (firstPaid: map<Address, int>)
    requires IndexOk(scripts, index)
    ensures FirstPaidOk(rows, scripts, index, firstPaid)
  {
    firstPaid := map[];
    for n := 0 to |rows|
      invariant FirstPaidOk(rows[..n], scripts, index, firstPaid)
    {
      hide FirstPaidOk, FirstPaidWith, IndexOk;
      var after := NoteFirstPaid(firstPaid, rows[n].tx, rows[n].height, scripts, index);
      FirstPaidStep(rows, n, scripts, index, firstPaid, after);
      firstPaid := after;
    }
    assert rows[..|rows|] == rows;
  }

  method NoteFirstPaid(before: map<Address, int>, tx: Tx, height: int, scripts: seq<WatchScript>,
      index: map<Script, nat>)
    returns (after: map<Address, int>)
    requires IndexOk(scripts, index)
    ensures FirstPaidWith(before, tx, |tx.outs|, height, scripts, index, after)
  {
    after := before;
    for i := 0 to |tx.outs|
      invariant FirstPaidWith(before, tx, i, height, scripts, index, after)
    {
      if tx.outs[i].script in index {
        var address := scripts[index[tx.outs[i].script]].address;
        if address !in after || height < after[address] {
          after := after[address := height];
        }
      }
    }
  }

  /** The lowest heights after the first i outputs of one more transaction. */
  ghost predicate FirstPaidWith(before: map<Address, int>, tx: Tx, i: nat, height: int, scripts: seq<WatchScript>,
      index: map<Script, nat>, after: map<Address, int>)
    requires IndexOk(scripts, index) && i <= |tx.outs|
  {
    && (forall a :: a in before ==> a in after && after[a] <= before[a])
    && (forall a :: a in after ==> (a in before && after[a] == before[a]) || (after[a] == height && PaysAddress(tx, scripts, index, a)))
    && (forall k :: 0 <= k < i && tx.outs[k].script in index ==>
          scripts[index[tx.outs[k].script]].address in after && after[scripts[index[tx.outs[k].script]].address] <= height)
  }

  lemma FirstPaidStep(rows: seq<TxRow>, n: nat, scripts: seq<WatchScript>, index: map<Script, nat>,
      before: map<Address, int>, after: map<Address, int>)
    requires IndexOk(scripts, index) && n < |rows|
    requires FirstPaidOk(rows[..n], scripts, index, before)
    requires FirstPaidWith(before, rows[n].tx, |rows[n].tx.outs|, rows[n].height, scripts, index, after)
    ensures FirstPaidOk(rows[..n + 1], scripts, index, after)
  {
    hide IndexOk, PaysAddress;
    var all := rows[..n + 1];
    assert all == rows[..n] + [rows[n]];
    forall a | a in after
      ensures PaidAt(all, scripts, index, a, after[a])
    {
      if a in before && after[a] == before[a] {
        PaidAtExtends(rows[..n], rows[n], scripts, index, a, before[a]);
      } else {
        assert all[n] == rows[n];
      }
    }
    forall k, a | 0 <= k < |all| && PaysAddress(all[k].tx, scripts, index, a)
      ensures a in after && after[a] <= all[k].height
    {
      FirstPaidBound(rows, n, scripts, index, before, after, k, a);
    }
  }

  lemma FirstPaidBound(rows: seq<TxRow>, n: nat, scripts: seq<WatchScript>, index: map<Script, nat>,
      before: map<Address, int>, after: map<Address, int>, k: nat, a: Address)
    requires IndexOk(scripts, index) && k <= n < |rows|
    requires FirstPaidOk(rows[..n], scripts, index, before)
    requires FirstPaidWith(before, rows[n].tx, |rows[n].tx.outs|, rows[n].height, scripts, index, after)
    requires PaysAddress(rows[k].tx, scripts, index, a)
    ensures a in after && after[a] <= rows[k].height
  {
    if k < n {
      assert rows[..n][k] == rows[k];
    }
  }

  lemma PaidAtExtends(rows: seq<TxRow>, row: TxRow, scripts: seq<WatchScript>, index: map<Script, nat>,
      address: Address, height: int)
    requires IndexOk(scripts, index) && PaidAt(rows, scripts, index, address, height)
    ensures PaidAt(rows + [row], scripts, index, address, height)
  {
    var n :| 0 <= n < |rows| && rows[n].height == height && PaysAddress(rows[n].tx, scripts, index, address);
    assert (rows + [row])[n] == rows[n];
  }

  /** The wallet outpoints with their addresses, and the coins left of them. */
  method CollectUnspent(txs: seq<Tx>, times: seq<int>, confirmed: nat, scripts: seq<WatchScript>,
      index: map<Script, nat>)
    returns (outpoints: map<OutPoint, Address>, coins: seq<Coin>)
    requires |txs| <= |times| && IndexOk(scripts, index)
    ensures outpoints.Keys == CoinMap(txs, index.Keys).Keys
    ensures ListsOnce(coins, UnspentCoins(txs, times, confirmed, scripts, index))
    ensures Sorted(ValueAtLeast, coins)
    ensures SumValues(coins) == Sum(Unspent(txs, index.Keys))
  {
    hide CoinMap, Unspent, Values, ListsOnce, Sorted, IndexOk, WalletCoins, Spent, Sum, SumValues;
    var made := CollectCoins(txs, times, confirmed, scripts, index);
    WalletCoinsMatch(txs, times, confirmed, scripts, index);
    outpoints := map op | op in made :: made[op].address;
    var unspent := DeleteSpent(made, txs);
    coins := ListCoins(unspent);
    ListedValue(coins, unspent);
    UnspentMatch(txs, times, confirmed, scripts, index);
  }

  lemma UnspentMatch(txs: seq<Tx>, times: seq<int>, confirmed: nat, scripts: seq<WatchScript>, index: map<Script, nat>)
    requires |txs| <= |times| && IndexOk(scripts, index)
    ensures Values(UnspentCoins(txs, times, confirmed, scripts, index)) == Unspent(txs, index.Keys)
  {
    WalletCoinsMatch(txs, times, confirmed, scripts, index);
  }

  function TimesOf(stored: seq<TxRow>, pending: seq<PendingRow>, blockTime: int -> int): (times: seq<int>)
    ensures |times| == |stored| + |pending|
  {
    seq(|stored|, i requires 0 <= i < |stored| => blockTime(stored[i].height))
    + seq(|pending|, i requires 0 <= i < |pending| => pending[i].seenAt)
  }

  method CollectCoins(txs: seq<Tx>, times: seq<int>, confirmed: nat, scripts: seq<WatchScript>, index: map<Script, nat>)
    returns (made: map<OutPoint, Coin>)
    requires |txs| <= |times| && IndexOk(scripts, index)
    ensures made == WalletCoins(txs, times, confirmed, scripts, index)
  {
    made := map[];
    for n := 0 to |txs|
      invariant made == WalletCoins(txs[..n], times, confirmed, scripts, index)
    {
      made := CollectTxCoins(made, txs[n], scripts, index, n < confirmed, times[n]);
      assert txs[..n + 1][..n] == txs[..n];
    }
    assert txs[..|txs|] == txs;
  }

  method CollectTxCoins(before: map<OutPoint, Coin>, tx: Tx, scripts: seq<WatchScript>, index: map<Script, nat>,
      confirmed: bool, time: int)
    returns (made: map<OutPoint, Coin>)
    requires IndexOk(scripts, index)
    ensures made == before + TxCoins(tx, |tx.outs|, scripts, index, confirmed, time)
  {
    made := before;
    for i := 0 to |tx.outs|
      invariant made == before + TxCoins(tx, i, scripts, index, confirmed, time)
    {
      var out := tx.outs[i];
      if out.script in index {
        var w := scripts[index[out.script]];
        var op := OutPoint(tx.id, i);
        made := made[op := Coin(op, out.value, out.script, w.address, w.path, confirmed, time)];
      }
    }
  }

  /** Lists the coins, in whatever order the map is walked, then the largest first. */
  method ListCoins(coins: map<OutPoint, Coin>) returns (list: seq<Coin>)
    requires forall op :: op in coins ==> coins[op].outPoint == op
    ensures ListsOnce(list, coins) && Sorted(ValueAtLeast, list)
  {
    hide ListsOnce, Sorted, Sort;
    NothingListed();
    var out: seq<Coin> := [];
    var left := coins.Keys;
    assert coins - left == map[];
    while left != {}
      invariant left <= coins.Keys
      invariant ListsOnce(out, coins - left)
      decreases |left|
    {
      var op :| op in left;
      ListsOnceAppend(out, coins - left, coins[op]);
      assert (coins - left)[op := coins[op]] == coins - (left - {op});
      out := out + [coins[op]];
      left := left - {op};
    }
    assert coins - left == coins;
    SortedCoins(out, coins);
    list := Sort(ValueAtLeast, out);
  }

  lemma NothingListed()
    ensures ListsOnce([], map[])
  {
  }

  lemma SortedCoins(list: seq<Coin>, coins: map<OutPoint, Coin>)
    requires ListsOnce(list, coins)
    ensures ListsOnce(Sort(ValueAtLeast, list), coins) && Sorted(ValueAtLeast, Sort(ValueAtLeast, list))
  {
    hide ListsOnce, Sorted;
    SortSorted(ValueAtLeast, list);
    ListsOncePermutation(list, Sort(ValueAtLeast, list), coins);
  }

  lemma ListsOnceAppend(list: seq<Coin>, coins: map<OutPoint, Coin>, c: Coin)
    requires ListsOnce(list, coins) && c.outPoint !in coins
    ensures ListsOnce(list + [c], coins[c.outPoint := c])
  {
    var all := list + [c];
    var after := coins[c.outPoint := c];
    forall op | op in after
      ensures exists i :: 0 <= i < |all| && all[i].outPoint == op
    {
      if op == c.outPoint {
        assert all[|list|].outPoint == op;
      } else {
        var i :| 0 <= i < |list| && list[i].outPoint == op;
        assert all[i].outPoint == op;
      }
    }
  }

  lemma ListsOncePermutation(a: seq<Coin>, b: seq<Coin>, coins: map<OutPoint, Coin>)
    requires ListsOnce(a, coins) && multiset(a) == multiset(b)
    ensures ListsOnce(b, coins)
  {
    forall i | 0 <= i < |b|
      ensures b[i] in a
    {
      assert b[i] in multiset(a);
    }
    forall op | op in coins
      ensures exists i :: 0 <= i < |b| && b[i].outPoint == op
    {
      var i :| 0 <= i < |a| && a[i].outPoint == op;
      assert a[i] in multiset(b);
      var j :| 0 <= j < |b| && b[j] == a[i];
      assert b[j].outPoint == op;
    }
    forall i, j | 0 <= i < j < |b|
      ensures b[i].outPoint != b[j].outPoint
    {
      if b[i].outPoint == b[j].outPoint {
        assert b[i] in a && b[j] in a;
        assert b[i] == b[j];
        RepeatedTwice(b, i, j);
        OnceOnly(a, b[i]);
      }
    }
  }

  lemma RepeatedTwice<T>(s: seq<T>, i: nat, j: nat)
    requires i < j < |s| && s[i] == s[j]
    ensures multiset(s)[s[i]] >= 2
  {
    assert s == s[..i] + [s[i]] + s[i + 1..j] + [s[j]] + s[j + 1..];
  }

  lemma {:induction false} OnceOnly<T>(s: seq<T>, c: T)
    requires forall i, j :: 0 <= i < j < |s| ==> s[i] != s[j]
    ensures multiset(s)[c] <= 1
  {
    if s != [] {
      OnceOnly(s[1..], c);
      assert s == [s[0]] + s[1..];
      if s[0] == c {
        assert c !in s[1..];
      }
    }
  }
}
