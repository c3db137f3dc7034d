/**
 What the operations of the sync engine make of its values, and lemmas about
 these steps (internal/sync).
 */
module Steps {
  import opened Basics
  import opened Sorting
  import opened Transactions
  import opened Ledger
  import opened Wallets
  import opened Locators
  import opened Chains
  import opened Scans
  import opened Stores
  import opened SyncState
  import opened PeerAnswers

  /** How a batch of headers fared. */
  datatype Outcome = Stored | UnknownParent | Rejected(reason: Rejection) | SaveFailed

  /** The chain, and the rows derived from its blocks. */
  datatype Tables = Tables(
    headers: seq<Header>, filters: map<int, FilterRow>, matches: map<MatchKey, MatchRow>, transactions: seq<TxRow>)

  /** What a batch makes of the chain it continues: its longest acceptable prefix is appended. */
  function Extend(params: Params, hashOf: WireHeader -> Hash, headers: seq<Header>, batch: seq<WireHeader>,
      clock: int -> int): (seq<Header>, Outcome)
    decreases |batch|
  {
    if batch == [] then (headers, Stored)
    else
      var rejected := CheckHeader(params, hashOf, headers, batch[0], clock(|headers|));
      if rejected.Some? then (headers, Rejected(rejected.value))
      else Extend(params, hashOf, headers + [NewHeader(hashOf, batch[0], |headers|)], batch[1..], clock)
  }

  /** The header at a height is the one sent for it, and passed every check
      against the headers below it. */
  ghost predicate Passed(params: Params, hashOf: WireHeader -> Hash, after: seq<Header>, k: nat, w: WireHeader,
      now: int) {
    k < |after| && after[k] == NewHeader(hashOf, w, k) && CheckHeader(params, hashOf, after[..k], w, now).None?
  }

  /** Of a batch on top of the base a prefix was taken: its headers all passed,
      the whole of it exactly if the outcome says so, and otherwise the next one
      fails a check for the reason given. */
  ghost predicate TakenUpTo(params: Params, hashOf: WireHeader -> Hash, base: seq<Header>, batch: seq<WireHeader>,
      clock: int -> int, after: seq<Header>, outcome: Outcome) {
    && base <= after && |after| <= |base| + |batch|
    && (forall k: nat :: |base| <= k < |after| ==> Passed(params, hashOf, after, k, batch[k - |base|], clock(k)))
    && (outcome == Stored <==> |after| == |base| + |batch|)
    && (outcome != Stored ==> outcome.Rejected? && |after| < |base| + |batch|
                              && CheckHeader(params, hashOf, after, batch[|after| - |base|], clock(|after|)) == Some(outcome.reason))
  }

  lemma {:induction false} ExtendTakes(params: Params, hashOf: WireHeader -> Hash, base: seq<Header>,
      batch: seq<WireHeader>, clock: int -> int)
    ensures var (after, outcome) := Extend(params, hashOf, base, batch, clock); TakenUpTo(params, hashOf, base, batch, clock, after, outcome)
    decreases |batch|
  {
    hide CheckHeader, NewHeader;
    var (after, outcome) := Extend(params, hashOf, base, batch, clock);
    if batch != [] && CheckHeader(params, hashOf, base, batch[0], clock(|base|)).None? {
      var next := base + [NewHeader(hashOf, batch[0], |base|)];
      ExtendTakes(params, hashOf, next, batch[1..], clock);
      assert after[..|base|] == base && after[|base|] == next[|base|];
      forall k: nat | |base| <= k < |after|
        ensures Passed(params, hashOf, after, k, batch[k - |base|], clock(k))
      {
        if k > |base| {
          assert Passed(params, hashOf, after, k, batch[1..][k - |next|], clock(k));
        }
      }
    }
  }

  /** What a batch made of the chain: nothing if no header has the hash the batch
      continues from; otherwise the chain is cut there and, if storing does not
      fail, the acceptable prefix is on it. */
  ghost predicate BatchFared(params: Params, hashOf: WireHeader -> Hash, before: seq<Header>, batch: seq<WireHeader>,
      clock: int -> int, saveFails: bool, after: seq<Header>, outcome: Outcome)
    requires batch != []
  {
    if forall i :: 0 <= i < |before| ==> before[i].hash != batch[0].prevBlock then after == before && outcome == UnknownParent
    else exists fork :: 0 <= fork < |before| && before[fork].hash == batch[0].prevBlock
           && if saveFails then after == before[..fork + 1] && outcome == SaveFailed
              else TakenUpTo(params, hashOf, before[..fork + 1], batch, clock, after, outcome)
  }

  lemma ExtendFares(params: Params, hashOf: WireHeader -> Hash, t: Tables, batch: seq<WireHeader>, clock: int -> int,
      saveFails: bool)
    requires batch != []
    ensures var (after, outcome) := ExtendTables(params, hashOf, t, batch, clock, saveFails);
            BatchFared(params, hashOf, t.headers, batch, clock, saveFails, after.headers, outcome)
  {
    hide Extend, TakenUpTo;
    var fork := HeightOfHash(t.headers, batch[0].prevBlock);
    if fork >= 0 {
      ExtendTakes(params, hashOf, t.headers[..fork + 1], batch, clock);
    }
  }

  /** All or, when storing fails, nothing of the accepted headers is kept. */
  function ExtendStored(params: Params, hashOf: WireHeader -> Hash, headers: seq<Header>, batch: seq<WireHeader>,
      clock: int -> int, saveFails: bool): (seq<Header>, Outcome) {
    if saveFails then (headers, SaveFailed) else Extend(params, hashOf, headers, batch, clock)
  }

  /** The height of a hash on the chain, or -1. */
  function HeightOfHash(headers: seq<Header>, hash: Hash): (height: int)
    ensures -1 <= height < |headers|
    ensures height >= 0 ==> headers[height].hash == hash
    ensures height == -1 ==> forall i :: 0 <= i < |headers| ==> headers[i].hash != hash
  {
    if headers == [] then -1
    else if headers[|headers| - 1].hash == hash then |headers| - 1
    else HeightOfHash(headers[..|headers| - 1], hash)
  }

  function RewindTables(t: Tables, fork: int): Tables
    requires -1 <= fork < |t.headers|
  {
    Tables(t.headers[..fork + 1], UpTo(t.filters, fork), MatchesUpTo(t.matches, fork), KeepUpTo(t.transactions, fork))
  }

  /** What a batch of headers makes of chain and tables: cut at the block it
      continues from, and what is accepted of it appended. */
  function ExtendTables(params: Params, hashOf: WireHeader -> Hash, t: Tables, batch: seq<WireHeader>,
      clock: int -> int, saveFails: bool): (Tables, Outcome)
    requires batch != []
  {
    var fork := HeightOfHash(t.headers, batch[0].prevBlock);
    if fork < 0 then (t, UnknownParent)
    else
      var base := RewindTables(t, fork);
      var (headers, outcome) := ExtendStored(params, hashOf, base.headers, batch, clock, saveFails);
      (base.(headers := headers), outcome)
  }

  ghost predicate TablesAgree(t: Tables, env: Env) {
    && FiltersAgree(t.filters, t.headers)
    && MatchesAgree(t.matches, t.headers, env)
    && TransactionsAgree(t.transactions, t.headers, env)
    && MatchesProcessed(t.matches, t.headers, env, t.transactions)
  }

  lemma TablesRewound(t: Tables, env: Env, fork: int)
    requires ValidBlocks(BlocksOf(env, t.headers)) && TablesAgree(t, env) && -1 <= fork < |t.headers|
    ensures TablesAgree(RewindTables(t, fork), env)
  {
    hide ValidBlocks, FiltersAgree, MatchesAgree, TransactionsAgree, MatchesProcessed;
    FiltersRewound(t.filters, t.headers, fork);
    MatchesRewound(t.matches, t.headers, env, fork);
    TransactionsRewound(t.transactions, t.headers, env, fork);
    ProcessedRewound(t.matches, t.transactions, t.headers, env, fork);
  }

  lemma TablesExtended(t: Tables, env: Env, headers: seq<Header>)
    requires TablesAgree(t, env) && t.headers <= headers
    ensures TablesAgree(t.(headers := headers), env)
  {
    hide FiltersAgree, MatchesAgree, TransactionsAgree, MatchesProcessed;
    assert t.headers + headers[|t.headers|..] == headers;
    AgreeExtends(t.filters, t.matches, t.transactions, t.headers, headers[|t.headers|..], env);
    ProcessedExtends(t.matches, t.transactions, t.headers, headers[|t.headers|..], env);
  }

  /** No row lies above the tip, so cutting at the tip changes nothing. */
  lemma RewindAtTip(t: Tables, env: Env)
    requires TablesAgree(t, env)
    ensures RewindTables(t, |t.headers| - 1) == t
  {
    KeepAll(t.transactions, |t.headers| - 1);
    assert t.headers[..|t.headers|] == t.headers;
  }

  /** The tables after a block at the height was processed. */
  function ProcessTables(t: Tables, env: Env, known: set<OutPoint>, mine: set<Script>, height: nat): Tables
    requires height < |t.headers|
  {
    var hash := t.headers[height].hash;
    t.(transactions := Process(t.transactions, env.blockOf(hash), known, mine, height, hash))
  }

  lemma TablesProcessed(t: Tables, env: Env, known: set<OutPoint>, mine: set<Script>, height: nat)
    requires ValidBlocks(BlocksOf(env, t.headers)) && TablesAgree(t, env) && height < |t.headers|
    ensures TablesAgree(ProcessTables(t, env, known, mine, height), env)
  {
    hide ValidBlocks, FiltersAgree, MatchesAgree, TransactionsAgree, MatchesProcessed, Process;
    ProcessAgrees(t.transactions, t.headers, env, known, mine, height);
    ProcessedKept(t.matches, t.transactions, t.headers, env, known, mine, height);
  }

  /** A filter as the peers served it, whether its block came along, and
      whether the block can be downloaded. */
  datatype Served = Served(data: FilterData, withBlock: bool, reachable: bool)

  lemma NoRowsChained(headers: seq<Header>, start: nat, prev: Hash, env: Env)
    ensures RowsChained([], [], headers, start, prev, env)
  {
  }

  lemma QuietPrefix(blocks: seq<Block>, h: nat, from: nat, mine: set<Script>)
    requires Quiet(blocks, from, mine) && h <= |blocks|
    ensures Quiet(blocks[..h], from, mine)
  {
  }

  /** A served filter is accepted: it is of a block on the chain, decodes, and a
      block it matches is at hand or can be downloaded. */
  predicate Acceptable(env: Env, headers: seq<Header>, scripts: seq<WatchScript>, height: int, served: Served) {
    && 0 <= height < |headers|
    && env.decodes(served.data)
    && (served.withBlock || served.reachable || Matched(env, scripts, served.data, headers[height].hash) == [])
  }

  /** No other filter is accepted, and none of these is refused. */
  lemma AcceptableIff(env: Env, headers: seq<Header>, scripts: seq<WatchScript>, height: int, served: Served)
    ensures Acceptable(env, headers, scripts, height, served) <==>
              && 0 <= height < |headers| && env.decodes(served.data)
              && (served.withBlock || served.reachable || forall w :: w in scripts ==> !env.hit(served.data, headers[height].hash, w.script))
  {
    hide Matched;
    if 0 <= height < |headers| {
      MatchedNone(env, scripts, served.data, headers[height].hash);
    }
  }

  lemma MatchedNone(env: Env, scripts: seq<WatchScript>, data: FilterData, hash: Hash)
    ensures Matched(env, scripts, data, hash) == [] <==> forall w :: w in scripts ==> !env.hit(data, hash, w.script)
  {
    hide Matched;
    forall w
      ensures w in Matched(env, scripts, data, hash) <==> w in scripts && env.hit(data, hash, w.script)
    {
      MatchedMember(env, scripts, data, hash, w);
    }
    var matched := Matched(env, scripts, data, hash);
    assert matched != [] ==> matched[0] in matched;
  }

  /** The tables after a block was processed for the scripts its filter matches. */
  function MatchTables(t: Tables, env: Env, known: set<OutPoint>, mine: set<Script>, height: nat,
      matched: seq<WatchScript>): Tables
    requires height < |t.headers|
  {
    var p := ProcessTables(t, env, known, mine, height);
    p.(matches := PutMatches(p.matches, matched, height, t.headers[height].hash))
  }

  lemma TablesMatched(t: Tables, env: Env, known: set<OutPoint>, mine: set<Script>, height: nat,
      matched: seq<WatchScript>)
    requires ValidBlocks(BlocksOf(env, t.headers)) && TablesAgree(t, env) && height < |t.headers|
    requires forall n :: 0 <= n < |matched| ==> matched[n].script == env.scriptOf(matched[n].address) && matched[n].script in mine
    ensures TablesAgree(MatchTables(t, env, known, mine, height, matched), env)
  {
    var hash := t.headers[height].hash;
    var p := ProcessTables(t, env, known, mine, height);
    TablesProcessed(t, env, known, mine, height);
    hide ValidBlocks, FiltersAgree, MatchesAgree, TransactionsAgree, MatchesProcessed, Process, Pays;
    forall n, tx | 0 <= n < |matched| && tx in env.blockOf(hash) && Pays(tx, {matched[n].script})
      ensures HasTx(p.transactions, tx)
    {
      PaysMore(tx, matched[n].script, mine);
      ProcessStoresPayments(t.transactions, t.headers, env, known, mine, height, tx);
    }
    PutMatchesAgree(p.matches, matched, p.headers, env, height);
    PutMatchesProcessed(p.matches, matched, p.headers, env, p.transactions, height);
  }

  /** The tables after the filter of a block was accepted. */
  function AcceptTables(t: Tables, env: Env, scripts: seq<WatchScript>, known: set<OutPoint>, mine: set<Script>,
      height: nat, served: Served): Tables
    requires height < |t.headers|
  {
    var matched := Matched(env, scripts, served.data, t.headers[height].hash);
    if matched != [] || served.withBlock then MatchTables(t, env, known, mine, height, matched) else t
  }

  /** Accepting a filter that holds no watched script, its block not at hand,
      changes nothing; otherwise the block is processed and just the addresses of
      the watched scripts in the filter are recorded as matched in it. */
  lemma AcceptedIs(t: Tables, env: Env, scripts: seq<WatchScript>, known: set<OutPoint>, mine: set<Script>,
      height: nat, served: Served)
    requires height < |t.headers|
    ensures var after, hash := AcceptTables(t, env, scripts, known, mine, height, served), t.headers[height].hash;
            && after.headers == t.headers && after.filters == t.filters
            && after.transactions == (if served.withBlock || exists w :: w in scripts && env.hit(served.data, hash, w.script)
                                      then Process(t.transactions, env.blockOf(hash), known, mine, height, hash) else t.transactions)
            && (forall k :: k in after.matches <==>
                              k in t.matches || (k.height == height && exists w :: w in scripts && env.hit(served.data, hash, w.script) && w.address == k.address))
            && (forall k :: k in t.matches ==> after.matches[k] == t.matches[k])
  {
    hide Process, PutMatches, Matched;
    var hash := t.headers[height].hash;
    var matched := Matched(env, scripts, served.data, hash);
    var after := AcceptTables(t, env, scripts, known, mine, height, served);
    MatchedNone(env, scripts, served.data, hash);
    forall k
      ensures k in PutMatches(t.matches, matched, height, hash) <==>
                k in t.matches || (k.height == height && exists w :: w in scripts && env.hit(served.data, hash, w.script) && w.address == k.address)
      ensures k in t.matches ==> PutMatches(t.matches, matched, height, hash)[k] == t.matches[k]
    {
      PutMatchesMember(t.matches, matched, height, hash, k);
      MatchedAddress(env, scripts, served.data, hash, k.address);
    }
  }

  lemma MatchedAddress(env: Env, scripts: seq<WatchScript>, data: FilterData, hash: Hash, a: Address)
    ensures (exists n :: 0 <= n < |Matched(env, scripts, data, hash)| && Matched(env, scripts, data, hash)[n].address == a) <==>
              exists w :: w in scripts && env.hit(data, hash, w.script) && w.address == a
  {
    hide Matched;
    var matched := Matched(env, scripts, data, hash);
    if n :| 0 <= n < |matched| && matched[n].address == a {
      MatchedMember(env, scripts, data, hash, matched[n]);
    }
    if w :| w in scripts && env.hit(data, hash, w.script) && w.address == a {
      MatchedMember(env, scripts, data, hash, w);
    }
  }

  lemma TablesAccepted(t: Tables, env: Env, scripts: seq<WatchScript>, known: set<OutPoint>, index: map<Script, nat>,
      height: nat, served: Served)
    requires ValidBlocks(BlocksOf(env, t.headers)) && TablesAgree(t, env) && height < |t.headers|
    requires IndexOk(scripts, index)
    requires forall i :: 0 <= i < |scripts| ==> scripts[i].script == env.scriptOf(scripts[i].address)
    ensures TablesAgree(AcceptTables(t, env, scripts, known, index.Keys, height, served), env)
  {
    var hash := t.headers[height].hash;
    var matched := Matched(env, scripts, served.data, hash);
    forall n | 0 <= n < |matched|
      ensures matched[n].script == env.scriptOf(matched[n].address) && matched[n].script in index
    {
      MatchedMember(env, scripts, served.data, hash, matched[n]);
    }
    hide ValidBlocks, TablesAgree, MatchTables, Matched;
    if matched != [] || served.withBlock {
      TablesMatched(t, env, known, index.Keys, height, matched);
    }
  }

  // ------------------------------------------------ unconfirmed transactions

  /** A block transaction spends what another, unconfirmed one is noted to spend. */
  predicate ConflictsWith(id: Hash, tx: Tx, spends: map<OutPoint, Hash>) {
    id != tx.id && exists i :: 0 <= i < |tx.ins| && tx.ins[i] in spends && spends[tx.ins[i]] == id
  }

  function CountRelevant(txs: seq<Tx>, known: set<OutPoint>, mine: set<Script>): nat {
    if txs == [] then 0
    else CountRelevant(txs[..|txs| - 1], known, mine) + if Relevant(txs[|txs| - 1], known, mine) then 1 else 0
  }

  /** The unconfirmed transaction conflicts with one of the block's or is one of its wallet transactions. */
  predicate Dropped(id: Hash, txs: seq<Tx>, spends: map<OutPoint, Hash>, known: set<OutPoint>, mine: set<Script>) {
    exists n :: 0 <= n < |txs| && (ConflictsWith(id, txs[n], spends) || (Relevant(txs[n], known, mine) && txs[n].id == id))
  }

  lemma DroppedStep(id: Hash, txs: seq<Tx>, n: nat, spends: map<OutPoint, Hash>, known: set<OutPoint>,
      mine: set<Script>)
    requires n < |txs|
    ensures Dropped(id, txs[..n + 1], spends, known, mine) <==>
              Dropped(id, txs[..n], spends, known, mine) || ConflictsWith(id, txs[n], spends) || (Relevant(txs[n], known, mine) && txs[n].id == id)
  {
    hide ConflictsWith, Relevant;
    if Dropped(id, txs[..n], spends, known, mine) {
      var k :| 0 <= k < n && (ConflictsWith(id, txs[..n][k], spends) || (Relevant(txs[..n][k], known, mine) && txs[..n][k].id == id));
      assert txs[..n + 1][k] == txs[..n][k];
    }
    if Dropped(id, txs[..n + 1], spends, known, mine) {
      var k :| 0 <= k <= n && (ConflictsWith(id, txs[..n + 1][k], spends) || (Relevant(txs[..n + 1][k], known, mine) && txs[..n + 1][k].id == id));
      assert k < n ==> txs[..n][k] == txs[..n + 1][k];
    }
    assert txs[..n + 1][n] == txs[n];
  }

  predicate ConflictsUpTo(id: Hash, tx: Tx, n: nat, spends: map<OutPoint, Hash>)
    requires n <= |tx.ins|
  {
    id != tx.id && exists i :: 0 <= i < n && tx.ins[i] in spends && spends[tx.ins[i]] == id
  }

  /** The notes left are true ones, and complete for the rows left. */
  ghost predicate StillNoted(noted: map<OutPoint, Hash>, left: map<OutPoint, Hash>, rows: seq<PendingRow>) {
    && (forall op :: op in left ==> op in noted && left[op] == noted[op])
    && (forall r, op :: r in rows && op in noted && noted[op] == r.tx.id ==> op in left)
  }

  lemma NotedAtFirst(noted: map<OutPoint, Hash>, rows: seq<PendingRow>)
    ensures StillNoted(noted, noted, rows)
  {
  }

  lemma StillNotedFewer(noted: map<OutPoint, Hash>, left: map<OutPoint, Hash>, rows: seq<PendingRow>,
      fewer: seq<PendingRow>)
    requires StillNoted(noted, left, rows) && forall r :: r in fewer ==> r in rows
    ensures StillNoted(noted, left, fewer)
  {
  }

  lemma NothingDropped(spends: map<OutPoint, Hash>, known: set<OutPoint>, mine: set<Script>)
    ensures forall id :: !Dropped(id, [], spends, known, mine)
  {
  }

  /** No two of the unconfirmed transactions spend one outpoint. */
  ghost predicate DisjointInputs(txs: seq<Tx>) {
    forall i, j, op :: 0 <= i < |txs| && 0 <= j < |txs| && op in txs[i].ins && op in txs[j].ins ==> txs[i].id == txs[j].id
  }

  lemma {:induction false} NotedSpender(txs: seq<Tx>, n: nat, op: OutPoint)
    requires DisjointInputs(txs) && n < |txs| && op in txs[n].ins
    ensures op in SpendersOf(txs) && SpendersOf(txs)[op] == txs[n].id
  {
    var last := |txs| - 1;
    if op in txs[last].ins {
      assert txs[last].id == txs[n].id;
    } else {
      assert forall i :: 0 <= i < last ==> txs[..last][i] == txs[i];
      NotedSpender(txs[..last], n, op);
    }
  }

  /** No unconfirmed transaction left after the block spends what a block
      transaction of another id spends. */
  ghost predicate NoConflictLeft(before: seq<Tx>, block: Block, known: set<OutPoint>, mine: set<Script>) {
    forall left, tx, op ::
      left in before && !Dropped(left.id, block, SpendersOf(before), known, mine) && tx in block && op in tx.ins && op in left.ins ==>
        tx.id == left.id
  }

  lemma DisjointDropped(before: seq<Tx>, left: Tx, block: Block, known: set<OutPoint>, mine: set<Script>, tx: Tx,
      op: OutPoint)
    requires DisjointInputs(before) && left in before
    requires !Dropped(left.id, block, SpendersOf(before), known, mine)
    requires tx in block && op in tx.ins && op in left.ins
    ensures tx.id == left.id
  {
    var n :| 0 <= n < |before| && before[n] == left;
    NotedSpender(before, n, op);
    var k :| 0 <= k < |block| && block[k] == tx;
    var i :| 0 <= i < |tx.ins| && tx.ins[i] == op;
    assert !ConflictsWith(left.id, block[k], SpendersOf(before));
  }

  /** Of two unconfirmed transactions spending one outpoint only the later is
      noted, so a block spending it leaves the other one. */
  lemma SharedLeft(before: seq<Tx>, left: Tx, op: OutPoint, known: set<OutPoint>, mine: set<Script>)
    requires left in before && op in left.ins && op in SpendersOf(before) && SpendersOf(before)[op] != left.id
    ensures !NoConflictLeft(before, [Tx(SpendersOf(before)[op], [op], [])], known, mine)
  {
    var tx := Tx(SpendersOf(before)[op], [op], []);
    assert !ConflictsWith(left.id, tx, SpendersOf(before)) by {
      assert forall i :: 0 <= i < |tx.ins| ==> tx.ins[i] == op;
    }
    assert !Dropped(left.id, [tx], SpendersOf(before), known, mine);
    assert tx in [tx] && op in tx.ins;
  }

  lemma {:induction false} SomeSpender(txs: seq<Tx>, n: nat, op: OutPoint)
    requires n < |txs| && op in txs[n].ins
    ensures op in SpendersOf(txs)
  {
    var last := |txs| - 1;
    if op !in txs[last].ins {
      SomeSpender(txs[..last], n, op);
    }
  }

  /** A block never leaves a conflict behind exactly when no two unconfirmed
      transactions spend one outpoint. */
  lemma NoConflictLeftIff(before: seq<Tx>, known: set<OutPoint>, mine: set<Script>)
    ensures (forall block :: NoConflictLeft(before, block, known, mine)) <==> DisjointInputs(before)
  {
    hide Dropped, SpendersOf;
    if DisjointInputs(before) {
      forall block: Block, left, tx: Tx, op | left in before && !Dropped(left.id, block, SpendersOf(before), known, mine) && tx in block && op in tx.ins
        && op in left.ins
        ensures tx.id == left.id
      {
        DisjointDropped(before, left, block, known, mine, tx, op);
      }
    } else {
      var i, j, op :| 0 <= i < |before| && 0 <= j < |before| && op in before[i].ins && op in before[j].ins && before[i].id != before[j].id;
      SomeSpender(before, i, op);
      SharedLeft(before, before[if SpendersOf(before)[op] == before[i].id then j else i], op, known, mine);
    }
  }

  /** Dropping unconfirmed transactions keeps their inputs disjoint. */
  lemma FewerDisjoint(rows: seq<PendingRow>, fewer: seq<PendingRow>)
    requires DisjointInputs(PendingTxs(rows)) && forall r :: r in fewer ==> r in rows
    ensures DisjointInputs(PendingTxs(fewer))
  {
    var txs, less := PendingTxs(rows), PendingTxs(fewer);
    forall i | 0 <= i < |less|
      ensures less[i] in txs
    {
      assert fewer[i] in fewer;
      var k :| 0 <= k < |rows| && rows[k] == fewer[i];
      assert txs[k] == less[i];
    }
  }

  lemma {:induction false} NotedSpends(txs: seq<Tx>, op: OutPoint) returns (n: nat)
    requires op in SpendersOf(txs)
    ensures n < |txs| && op in txs[n].ins && txs[n].id == SpendersOf(txs)[op]
  {
    var last := |txs| - 1;
    if op in txs[last].ins {
      n := last;
    } else {
      n := NotedSpends(txs[..last], op);
    }
  }

  /** Nothing else is dropped: an unconfirmed transaction goes only if the block
      confirms it or has another transaction that spends one of its inputs. */
  lemma DroppedFor(before: seq<Tx>, left: Tx, block: Block, known: set<OutPoint>, mine: set<Script>) returns (tx: Tx)
    requires left in before && (forall i, j :: 0 <= i < j < |before| ==> before[i].id != before[j].id)
    requires Dropped(left.id, block, SpendersOf(before), known, mine)
    ensures tx in block
    ensures (tx.id == left.id && Relevant(tx, known, mine)) || (tx.id != left.id && exists op :: op in tx.ins && op in left.ins)
  {
    hide SpendersOf, Relevant;
    var k :| 0 <= k < |block| && (ConflictsWith(left.id, block[k], SpendersOf(before)) || (Relevant(block[k], known, mine) && block[k].id == left.id));
    tx := block[k];
    if ConflictsWith(left.id, tx, SpendersOf(before)) {
      var i :| 0 <= i < |tx.ins| && tx.ins[i] in SpendersOf(before) && SpendersOf(before)[tx.ins[i]] == left.id;
      var n := NotedSpends(before, tx.ins[i]);
      var m :| 0 <= m < |before| && before[m] == left;
      assert tx.ins[i] in tx.ins;
    }
  }

  /** As many are found as transactions of the block are relevant. */
  lemma {:induction false} CountedAre(txs: seq<Tx>, known: set<OutPoint>, mine: set<Script>)
    ensures CountRelevant(txs, known, mine) == |set n | 0 <= n < |txs| && Relevant(txs[n], known, mine)|
  {
    hide Relevant;
    if txs != [] {
      var last := |txs| - 1;
      CountedAre(txs[..last], known, mine);
      var rest := set n | 0 <= n < last && Relevant(txs[..last][n], known, mine);
      var all := set n | 0 <= n < |txs| && Relevant(txs[n], known, mine);
      assert rest == set n | 0 <= n < last && Relevant(txs[n], known, mine);
      assert all == if Relevant(txs[last], known, mine) then rest + {last} else rest;
    }
  }

  predicate SharesInput(txs: seq<Tx>, tx: Tx) {
    exists n, i :: 0 <= n < |txs| && 0 <= i < |tx.ins| && tx.ins[i] in txs[n].ins
  }

  /** One more unconfirmed transaction keeps the inputs disjoint exactly when it
      shares none with those there. */
  lemma OneMoreDisjoint(txs: seq<Tx>, tx: Tx)
    requires DisjointInputs(txs) && forall n :: 0 <= n < |txs| ==> txs[n].id != tx.id
    ensures DisjointInputs(txs + [tx]) <==> !SharesInput(txs, tx)
  {
    var all := txs + [tx];
    if SharesInput(txs, tx) {
      var n, i :| 0 <= n < |txs| && 0 <= i < |tx.ins| && tx.ins[i] in txs[n].ins;
      assert all[n] == txs[n] && all[|txs|] == tx && tx.ins[i] in all[|txs|].ins;
    } else {
      forall n, op | 0 <= n < |txs| && op in tx.ins
        ensures op !in txs[n].ins
      {
        NotShared(txs, tx, n, op);
      }
    }
    assert forall n :: 0 <= n < |txs| ==> all[n] == txs[n];
  }

  lemma NotShared(txs: seq<Tx>, tx: Tx, n: nat, op: OutPoint)
    requires n < |txs| && op in tx.ins && !SharesInput(txs, tx)
    ensures op !in txs[n].ins
  {
    var k :| 0 <= k < |tx.ins| && tx.ins[k] == op;
  }

  /** A payment and its replacement, both seen unconfirmed: when the replacement
      confirms, the payment stays, though the outpoint it spends is spent. */
  lemma ReplacementExample(payment: Tx, replacement: Tx, op: OutPoint, known: set<OutPoint>, mine: set<Script>)
    requires payment.ins == [op] && replacement.ins == [op] && payment.id != replacement.id
    ensures !Dropped(payment.id, [replacement], SpendersOf([payment, replacement]), known, mine)
    ensures Relevant(replacement, known, mine) ==> Dropped(replacement.id, [replacement], SpendersOf([payment, replacement]), known, mine)
    ensures op in payment.ins && op in replacement.ins
  {
    var txs := [payment, replacement];
    assert txs[..1] == [payment];
    assert op in replacement.ins;
    assert SpendersOf(txs)[op] == replacement.id;
    var block := [replacement];
    assert !ConflictsWith(payment.id, block[0], SpendersOf(txs));
    assert block[0].id == replacement.id;
  }

  // ------------------------------------------------- what the wallet shows

  /** The times of the blocks, 0 where no header is loaded. */
  function BlockTimes(headers: seq<Header>): int -> int {
    height => if 0 <= height < |headers| then headers[height].timestamp else 0
  }

  /** The history the tables give. */
  ghost function HistoryOf(headers: seq<Header>, listed: seq<TxRow>, pending: seq<PendingRow>, mine: set<Script>): seq<WalletTx> {
    var all := TxsOf(listed) + PendingTxs(pending);
    Sort(NewerFirst, Entries(all, TimesOf(listed, pending, BlockTimes(headers)), |listed|, ById(all), mine))
  }

  /** The history has an entry for every stored transaction, confirmed and with
      the time of its block, and for every unconfirmed one, with the time it was seen. */
  lemma HistoryTells(headers: seq<Header>, listed: seq<TxRow>, pending: seq<PendingRow>, mine: set<Script>)
    ensures |HistoryOf(headers, listed, pending, mine)| == |listed| + |pending|
    ensures forall r :: r in listed && 0 <= r.height < |headers| ==>
              exists e :: e in HistoryOf(headers, listed, pending, mine) && e.txid == r.tx.id && e.confirmed && e.time == headers[r.height].timestamp
    ensures forall r :: r in pending ==>
              exists e :: e in HistoryOf(headers, listed, pending, mine) && e.txid == r.tx.id && !e.confirmed && e.time == r.seenAt
  {
    hide Sort, Entries;
    var all, times := TxsOf(listed) + PendingTxs(pending), TimesOf(listed, pending, BlockTimes(headers));
    var entries := Entries(all, times, |listed|, ById(all), mine);
    var history := HistoryOf(headers, listed, pending, mine);
    assert history == Sort(NewerFirst, entries);
    forall n | 0 <= n < |all|
      ensures |entries| == |all| && entries[n] in history
      ensures entries[n].txid == all[n].id && entries[n].time == times[n] && (entries[n].confirmed <==> n < |listed|)
    {
      EntriesAre(all, times, |listed|, ById(all), mine, n);
      assert entries[n] in multiset(history);
    }
    forall r | r in listed && 0 <= r.height < |headers|
      ensures exists e :: e in history && e.txid == r.tx.id && e.confirmed && e.time == headers[r.height].timestamp
    {
      var n :| 0 <= n < |listed| && listed[n] == r;
      assert entries[n] in history && all[n] == r.tx;
    }
    forall r | r in pending
      ensures exists e :: e in history && e.txid == r.tx.id && !e.confirmed && e.time == r.seenAt
    {
      var n :| 0 <= n < |pending| && pending[n] == r;
      assert entries[|listed| + n] in history && all[|listed| + n] == r.tx;
    }
    EntriesLength(all, times, |listed|, ById(all), mine);
  }

  lemma EntriesLength(all: seq<Tx>, times: seq<int>, confirmed: nat, byId: map<Hash, Tx>, mine: set<Script>)
    requires |all| <= |times|
    ensures |Entries(all, times, confirmed, byId, mine)| == |all|
  {
  }

  /** More headers on top leave the history as it is. */
  lemma HistoryKept(headers: seq<Header>, more: seq<Header>, rows: seq<TxRow>, listed: seq<TxRow>,
      pending: seq<PendingRow>, mine: set<Script>)
    requires headers <= more && multiset(listed) == multiset(rows)
    requires forall n :: 0 <= n < |rows| ==> 0 <= rows[n].height < |headers|
    ensures HistoryOf(headers, listed, pending, mine) == HistoryOf(more, listed, pending, mine)
  {
    forall n | 0 <= n < |listed|
      ensures 0 <= listed[n].height < |headers|
    {
      assert listed[n] in multiset(rows);
    }
    assert TimesOf(listed, pending, BlockTimes(headers)) == TimesOf(listed, pending, BlockTimes(more));
  }

  /** The unconfirmed transactions have ids of their own. */
  ghost predicate PendingApart(rows: seq<TxRow>, pending: seq<PendingRow>) {
    && DistinctPending(pending)
    && (forall i :: 0 <= i < |pending| ==> pending[i].tx.id != ZERO_HASH)
    && (forall n, i :: 0 <= n < |rows| && 0 <= i < |pending| ==> rows[n].tx.id != pending[i].tx.id)
  }

  lemma ApartKept(rows: seq<TxRow>, height: int, pending: seq<PendingRow>)
    requires PendingApart(rows, pending)
    ensures PendingApart(KeepUpTo(rows, height), pending)
  {
    var kept := KeepUpTo(rows, height);
    forall n | 0 <= n < |kept|
      ensures kept[n] in rows
    {
      KeepMember(rows, height, kept[n]);
    }
  }

  /** After a block no transaction is both stored and unconfirmed. */
  lemma ApartProcessed(headers: seq<Header>, env: Env, rows: seq<TxRow>, before: seq<PendingRow>, pending: seq<PendingRow>,
      height: nat, spends: map<OutPoint, Hash>, known: set<OutPoint>, mine: set<Script>)
    requires ValidBlocks(BlocksOf(env, headers)) && height < |headers| && DistinctRows(rows)
    requires PendingApart(rows, before) && DistinctPending(pending)
    requires forall r :: r in pending ==> r in before && !Dropped(r.tx.id, env.blockOf(headers[height].hash), spends, known, mine)
    ensures PendingApart(Process(rows, env.blockOf(headers[height].hash), known, mine, height, headers[height].hash), pending)
  {
    var block, hash := env.blockOf(headers[height].hash), headers[height].hash;
    assert BlocksOf(env, headers)[height] == block;
    BlockIds(BlocksOf(env, headers), height);
    hide ValidBlocks, Process, BlocksOf, Relevant, ConflictsWith, DistinctRows;
    var after := Process(rows, block, known, mine, height, hash);
    forall i | 0 <= i < |pending|
      ensures pending[i] in before
    {
      assert pending[i] in pending;
    }
    forall n, i | 0 <= n < |after| && 0 <= i < |pending|
      ensures after[n].tx.id != pending[i].tx.id
    {
      ProcessMember(rows, block, known, mine, height, hash, after[n]);
      assert pending[i] in pending;
    }
  }

  /** The stored transactions and the unconfirmed ones have distinct ids. */
  lemma AllDistinct(headers: seq<Header>, env: Env, rows: seq<TxRow>, listed: seq<TxRow>, pending: seq<PendingRow>)
    requires ValidBlocks(BlocksOf(env, headers)) && TransactionsAgree(rows, headers, env)
    requires PendingApart(rows, pending) && multiset(listed) == multiset(rows) && multiset(TxsOf(listed)) == multiset(TxsOf(rows))
    ensures DistinctIds(TxsOf(listed) + PendingTxs(pending))
  {
    var stored, all := TxsOf(listed), TxsOf(listed) + PendingTxs(pending);
    StoredIds(headers, env, rows);
    DistinctInAnyOrder(TxsOf(rows), stored);
    forall n | 0 <= n < |listed|
      ensures listed[n] in rows
    {
      assert listed[n] in multiset(rows);
    }
    assert forall i :: 0 <= i < |all| ==> all[i] == if i < |listed| then listed[i].tx else pending[i - |listed|].tx;
  }

  lemma StoredIds(headers: seq<Header>, env: Env, rows: seq<TxRow>)
    requires ValidBlocks(BlocksOf(env, headers)) && TransactionsAgree(rows, headers, env)
    ensures DistinctIds(TxsOf(rows))
  {
    var blocks := BlocksOf(env, headers);
    forall n | 0 <= n < |rows|
      ensures rows[n].tx.id != ZERO_HASH
    {
      assert rows[n].tx in blocks[rows[n].height];
      AllTxsMember(blocks, rows[n].tx);
      var k :| 0 <= k < |AllTxs(blocks)| && AllTxs(blocks)[k] == rows[n].tx;
    }
  }

  lemma {:induction false} KeepAll(rows: seq<TxRow>, height: int)
    requires forall n :: 0 <= n < |rows| ==> rows[n].height <= height
    ensures KeepUpTo(rows, height) == rows
  {
    if rows != [] {
      KeepAll(rows[..|rows| - 1], height);
    }
  }

  /** The rows are the stored forms of the headers added to the base. */
  ghost predicate RowsOf(base: seq<Header>, headers: seq<Header>, rows: seq<StoredHeader>) {
    && |headers| == |base| + |rows|
    && forall i :: 0 <= i < |rows| ==> rows[i] == StoredOf(headers[|base| + i])
  }

  /** On a chain a hash has one height. */
  lemma SameHeight(params: Params, hashOf: WireHeader -> Hash, headers: seq<Header>, hash: Hash, height: int)
    requires Sound(params, hashOf) && Linked(params, hashOf, headers)
    requires 0 <= height < |headers| && headers[height].hash == hash
    ensures HeightOfHash(headers, hash) == height
  {
    var found := HeightOfHash(headers, hash);
    if 0 <= found < height {
      HashesDistinct(params, hashOf, headers, found, height);
    } else if height < found {
      HashesDistinct(params, hashOf, headers, height, found);
    }
  }

  lemma BatchLength(base: seq<Header>, headers: seq<Header>, rows: seq<StoredHeader>)
    requires RowsOf(base, headers, rows) && base <= headers
    ensures |headers| == |base| + |rows| && headers[..|headers| - |rows|] == base
  {
  }

  lemma FromWireIsStored(hashOf: WireHeader -> Hash, w: WireHeader, height: int)
    ensures HeaderFromWire(hashOf, w, height) == StoredOf(NewHeader(hashOf, w, height))
  {
  }

  lemma BatchMatches(table: map<int, StoredHeader>, params: Params, hashOf: WireHeader -> Hash, base: seq<Header>,
      headers: seq<Header>, rows: seq<StoredHeader>)
    requires Sound(params, hashOf) && Linked(params, hashOf, headers) && base <= headers
    requires HeadersMatch(table, base) && RowsOf(base, headers, rows)
    ensures HeadersMatch(PutHeaders(table, rows), headers)
  {
    hide Linked, HeadersMatch, Sound;
    assert base + headers[|base|..] == headers;
    PutNewHeaders(table, params, hashOf, base, headers[|base|..], rows);
  }

  lemma {:induction false} HeldHeightAt(heights: seq<int>, n: nat, i: nat)
    requires forall i, j :: 0 <= i < j < |heights| ==> heights[i] < heights[j]
    requires forall h :: h in heights <==> 0 <= h < n
    requires i < |heights|
    ensures heights[i] == i
  {
    if i > 0 {
      HeldHeightAt(heights, n, i - 1);
    }
    assert heights[i] in heights;
    assert i in heights;
    var j :| 0 <= j < |heights| && heights[j] == i;
  }

  /** The ordered heights of a table holding a chain count it off. */
  lemma HeldHeights(table: map<int, StoredHeader>, held: seq<Header>, heights: seq<int>)
    requires HeadersMatch(table, held)
    requires forall i, j :: 0 <= i < j < |heights| ==> heights[i] < heights[j]
    requires forall h :: h in heights <==> h in table
    ensures |heights| == |held|
    ensures forall i :: 0 <= i < |heights| ==> heights[i] == i
  {
    forall i | 0 <= i < |heights|
      ensures heights[i] == i < |held|
    {
      HeldHeightAt(heights, |held|, i);
      assert heights[i] in heights;
    }
    assert |heights| in heights <==> |heights| in table;
    assert |heights| > 0 ==> heights[|heights| - 1] == |heights| - 1;
  }

  /** The first n stored headers, at heights 0 to n - 1, are on the chain. */
  ghost predicate LoadedUpTo(table: map<int, StoredHeader>, heights: seq<int>, headers: seq<Header>, n: nat) {
    && |headers| == n <= |heights|
    && forall k :: 0 <= k < n ==> heights[k] == k && k in table && ToWire(headers[k]) == WireFromHeader(table[k])
  }

  /** The table holds the wire form of every header of the chain and no other height. */
  ghost predicate HoldsHeaders(table: map<int, StoredHeader>, headers: seq<Header>) {
    && (forall k :: k in table <==> 0 <= k < |headers|)
    && (forall k :: 0 <= k < |headers| ==> ToWire(headers[k]) == WireFromHeader(table[k]))
  }

  lemma LoadedOneMore(table: map<int, StoredHeader>, heights: seq<int>, hashOf: WireHeader -> Hash,
      headers: seq<Header>, n: nat)
    requires n < |heights| && heights[n] == n && n in table && |headers| == n + 1
    requires LoadedUpTo(table, heights, headers[..n], n)
    requires headers[n] == NewHeader(hashOf, WireFromHeader(table[n]), n)
    ensures LoadedUpTo(table, heights, headers, n + 1)
  {
    forall k | 0 <= k < n
      ensures heights[k] == k && k in table && ToWire(headers[k]) == WireFromHeader(table[k])
    {
      assert headers[..n][k] == headers[k];
    }
  }

  lemma CountedOff(table: map<int, StoredHeader>, heights: seq<int>, headers: seq<Header>)
    requires forall h :: h in heights <==> h in table
    requires LoadedUpTo(table, heights, headers, |heights|)
    ensures HoldsHeaders(table, headers)
  {
    forall k
      ensures k in table <==> 0 <= k < |heights|
    {
      if 0 <= k < |heights| {
        assert heights[k] in heights;
      } else {
        assert k !in heights;
      }
    }
  }

  lemma HeldLinksOn(params: Params, hashOf: WireHeader -> Hash, table: map<int, StoredHeader>, held: seq<Header>,
      n: nat)
    requires Linked(params, hashOf, held) && HeadersMatch(table, held) && n < |held|
    ensures n in table
    ensures LinksOn(params, hashOf, held[..n], WireFromHeader(table[n]))
    ensures held[..n] + [NewHeader(hashOf, WireFromHeader(table[n]), n)] == held[..n + 1]
  {
    assert held[n] == NewHeader(hashOf, ToWire(held[n]), n);
    assert WireFromHeader(table[n]) == ToWire(held[n]);
  }

  // --------------------------------------------------------- feeds of filters

  /** The filters the peers agree on or are settled against the block, by height. */
  type Feed = int -> Option<Served>

  predicate Accepts(env: Env, headers: seq<Header>, scripts: seq<WatchScript>, feed: Feed, h: int) {
    feed(h).Some? && Acceptable(env, headers, scripts, h, feed(h).value)
  }

  /** The filters from a height on were accepted up to a stop, and before the
      end only because the one at the stop was not acceptable. */
  ghost predicate Stops(env: Env, headers: seq<Header>, scripts: seq<WatchScript>, feed: Feed, from: int, stop: int,
      end: int) {
    && from <= stop <= end
    && (forall h :: from <= h < stop ==> Accepts(env, headers, scripts, feed, h))
    && (stop < end ==> !Accepts(env, headers, scripts, feed, stop))
  }

  lemma StopsAtStart(env: Env, headers: seq<Header>, scripts: seq<WatchScript>, feed: Feed, from: int)
    ensures Stops(env, headers, scripts, feed, from, from, from)
  {
  }

  lemma StopsStep(env: Env, headers: seq<Header>, scripts: seq<WatchScript>, feed: Feed, from: int, h: int, end: int)
    requires Stops(env, headers, scripts, feed, from, h, h) && h < end
    ensures if Accepts(env, headers, scripts, feed, h) then Stops(env, headers, scripts, feed, from, h + 1, h + 1) else Stops(env, headers, scripts, feed, from, h, end)
  {
  }

  /** The filters the chain was built from are those fed for the heights. */
  ghost predicate HoldsFed(original: map<int, FilterData>, feed: Feed, from: int, end: int) {
    forall h :: from <= h < end ==> h in original && feed(h).Some? && original[h] == feed(h).value.data
  }

  ghost predicate KeepsBelow(before: map<int, FilterData>, after: map<int, FilterData>, end: int) {
    forall h :: h < end && h in before ==> h in after && after[h] == before[h]
  }

  lemma HoldsOn(before: map<int, FilterData>, after: map<int, FilterData>, feed: Feed, from: int, mid: int, end: int)
    requires HoldsFed(before, feed, from, mid) && KeepsBelow(before, after, mid) && HoldsFed(after, feed, mid, end)
    ensures HoldsFed(after, feed, from, end)
  {
  }

  /** The rows cover the blocks from the filter start up to a height: every
      wallet transaction that can be told from the blocks below its own is stored. */
  ghost predicate ScannedTo(env: Env, headers: seq<Header>, rows: seq<TxRow>, mine: set<Script>, start: nat, end: int) {
    start <= end <= |headers| && Covers(BlocksOf(env, headers[..end]), start, rows, mine)
  }

  ghost predicate TruthFed(env: Env, headers: seq<Header>, mine: set<Script>, feed: Feed, h: int) {
    feed(h).Some? && 0 <= h < |headers| && Truthful(env, headers, mine, h, feed(h).value.data)
  }

  /** With no block below the filter start paying the wallet, accepting filters
      that miss nothing carries a complete scan on to where it stops. */
  ghost predicate ScansOn(env: Env, headers: seq<Header>, mine: set<Script>, start: nat, feed: Feed,
      before: seq<TxRow>, from: int, after: seq<TxRow>, stop: int) {
    && ScannedTo(env, headers, before, mine, start, from)
    && Quiet(BlocksOf(env, headers), start, mine)
    && (forall h :: from <= h < stop ==> TruthFed(env, headers, mine, feed, h))
    ==> ScannedTo(env, headers, after, mine, start, stop)
  }

  lemma ScansNothing(env: Env, headers: seq<Header>, mine: set<Script>, start: nat, feed: Feed, rows: seq<TxRow>,
      from: int)
    ensures ScansOn(env, headers, mine, start, feed, rows, from, rows, from)
  {
  }

  lemma ScansFurther(env: Env, headers: seq<Header>, mine: set<Script>, start: nat, feed: Feed, before: seq<TxRow>,
      from: int, between: seq<TxRow>, mid: int, after: seq<TxRow>, stop: int)
    requires from <= mid <= stop
    requires ScansOn(env, headers, mine, start, feed, before, from, between, mid)
    requires ScansOn(env, headers, mine, start, feed, between, mid, after, stop)
    ensures ScansOn(env, headers, mine, start, feed, before, from, after, stop)
  {
    hide ScannedTo, TruthFed, Quiet;
  }

  /** Accepting a truthful filter at the scanned height scans its block. */
  lemma AcceptScans(env: Env, t: Tables, scripts: seq<WatchScript>, index: map<Script, nat>, listed: seq<TxRow>,
      pending: seq<Tx>, start: nat, h: nat, served: Served)
    requires ValidBlocks(BlocksOf(env, t.headers)) && h < |t.headers| && IndexOk(scripts, index)
    requires ScannedTo(env, t.headers, t.transactions, index.Keys, start, h)
    requires Quiet(BlocksOf(env, t.headers), start, index.Keys)
    requires Truthful(env, t.headers, index.Keys, h, served.data)
    requires multiset(listed) == multiset(t.transactions)
    ensures var known := CoinMap(TxsOf(listed) + pending, index.Keys).Keys;
            ScannedTo(env, t.headers, AcceptTables(t, env, scripts, known, index.Keys, h, served).transactions, index.Keys, start, h + 1)
  {
    var mine := index.Keys;
    var blocks := BlocksOf(env, t.headers);
    var known := CoinMap(TxsOf(listed) + pending, mine).Keys;
    hide ValidBlocks, Quiet, Truthful, Covers, Matched, Process, CoinMap;
    ValidPrefix(blocks, h);
    BlocksPrefix(env, t.headers, h);
    QuietPrefix(blocks, h, start, mine);
    KnownCoins(blocks[..h], start, t.transactions, listed, pending, mine);
    AcceptCovers(env, t.headers, start, h, t.transactions, scripts, index, known, served.data, served.withBlock);
  }

  /** What a run of accepted filters leaves: the filters behind the stored
      chain, and the stored transactions. */
  datatype Progress = Progress(original: map<int, FilterData>, rows: seq<TxRow>)

  /** From one height on the fed filters were accepted up to a stop; they are
      the ones the stored chain is built from, and they carried the scan on. */
  ghost predicate Fed(env: Env, headers: seq<Header>, scripts: seq<WatchScript>, mine: set<Script>, start: nat, feed: Feed,
                      before: Progress, from: int, after: Progress, stop: int, end: int)
  {
    && Stops(env, headers, scripts, feed, from, stop, end)
    && HoldsFed(after.original, feed, from, stop) && KeepsBelow(before.original, after.original, from)
    && ScansOn(env, headers, mine, start, feed, before.rows, from, after.rows, stop)
  }

  lemma FedNothing(env: Env, headers: seq<Header>, scripts: seq<WatchScript>, mine: set<Script>, start: nat,
      feed: Feed, p: Progress, from: int)
    ensures Fed(env, headers, scripts, mine, start, feed, p, from, p, from, from)
  {
  }

  lemma FedBounds(env: Env, headers: seq<Header>, scripts: seq<WatchScript>, mine: set<Script>, start: nat, feed: Feed,
                  before: Progress, from: int, after: Progress, stop: int, end: int)
    requires Fed(env, headers, scripts, mine, start, feed, before, from, after, stop, end)
    ensures from <= stop <= end
  {
  }

  /** One run of accepted filters after another is one run, and one that
      stopped early stopped before any later end too. */
  lemma FedOn(env: Env, headers: seq<Header>, scripts: seq<WatchScript>, mine: set<Script>, start: nat, feed: Feed,
              before: Progress, from: int, between: Progress, mid: int, after: Progress, stop: int, end: int, later: int)
    requires Fed(env, headers, scripts, mine, start, feed, before, from, between, mid, mid)
    requires Fed(env, headers, scripts, mine, start, feed, between, mid, after, stop, end)
    requires later == stop == end || stop < end <= later
    ensures Fed(env, headers, scripts, mine, start, feed, before, from, after, stop, later)
  {
    hide Accepts, ScansOn;
    ScansFurther(env, headers, mine, start, feed, before.rows, from, between.rows, mid, after.rows, stop);
    HoldsOn(between.original, after.original, feed, from, mid, stop);
  }

  // ------------------------------------------------------ filter header answers

  /** What a peer answers to a filter header request: the header its batch
      follows, and whether it is the pinned peer. */
  datatype Answer = Answer(prev: Hash, pinned: bool)

  /** How a run of the filter sync ended. */
  datatype SyncResult = Synced | NoLinkingPeer | FilterRefused

  /** One filter header request is bounded by the protocol, and one filter request too. */
  const FILTER_HEADER_BATCH := 2000
  const FILTER_BATCH := 1000

  function Prevs(answers: seq<Answer>): seq<Hash> {
    seq(|answers|, i requires 0 <= i < |answers| => answers[i].prev)
  }

  /** The anchor the answers settle on: the majority's, or the first peer's when there is none. */
  ghost predicate IsAnchor(answers: seq<Answer>, anchor: Hash) {
    if exists v :: IsMajority(Prevs(answers), v) then IsMajority(Prevs(answers), anchor)
    else answers != [] && anchor == answers[0].prev
  }

  lemma AnchorSettled(answers: seq<Answer>, voted: Option<Hash>)
    requires answers != []
    requires voted.Some? ==> IsMajority(Prevs(answers), voted.value)
    requires voted.None? ==> forall v :: !IsMajority(Prevs(answers), v)
    ensures IsAnchor(answers, if voted.Some? then voted.value else answers[0].prev)
  {
  }

  /** The places of the answers that name a header. */
  ghost function Naming(answers: seq<Answer>, prev: Hash): set<int> {
    set i | 0 <= i < |answers| && answers[i].prev == prev
  }

  /** More than half of the answers name the anchor, or it is the first answer's
      while none is named by more than half. */
  lemma AnchorIs(answers: seq<Answer>, anchor: Hash)
    requires IsAnchor(answers, anchor)
    ensures answers != []
    ensures 2 * |Naming(answers, anchor)| > |answers|
            || (anchor == answers[0].prev && forall v :: 2 * |Naming(answers, v)| <= |answers|)
  {
    forall v
      ensures IsMajority(Prevs(answers), v) <==> 2 * |Naming(answers, v)| > |answers|
    {
      VotesSplit(Prevs(answers), v);
      assert Naming(answers, v) == set i | 0 <= i < |Prevs(answers)| && Prevs(answers)[i] == v;
    }
  }

  /** The batch follows the stored chain; at height 0 it may name the genesis block. */
  predicate LinksTo(start: int, link: Option<Hash>, genesis: Hash, got: Hash) {
    link == Some(got) || (start == 0 && got == genesis)
  }

  /** The places of the answers that link to the stored chain. */
  function Linking(start: int, link: Option<Hash>, genesis: Hash, answers: seq<Answer>): seq<nat> {
    if answers == [] then []
    else
      var n := |answers| - 1;
      Linking(start, link, genesis, answers[..n]) + if LinksTo(start, link, genesis, answers[n].prev) then [n] else []
  }

  /** They are in the order of the list, and they are just those that name the
      header to link to or, at height 0, the genesis block. */
  lemma {:induction false} LinkingIs(start: int, link: Option<Hash>, genesis: Hash, answers: seq<Answer>)
    ensures var kept := Linking(start, link, genesis, answers);
            && (forall i, j :: 0 <= i < j < |kept| ==> kept[i] < kept[j])
            && (forall i :: 0 <= i < |kept| ==> kept[i] < |answers|)
            && (forall k: nat :: k in kept <==> k < |answers| && (link == Some(answers[k].prev) || (start == 0 && answers[k].prev == genesis)))
  {
    if answers != [] {
      var n := |answers| - 1;
      LinkingIs(start, link, genesis, answers[..n]);
      assert forall k: nat :: k < n ==> answers[..n][k] == answers[k];
    }
  }

  /** The filter header of a height, chained from the filters behind it. */
  function ChainedTo(env: Env, anchor: Hash, original: map<int, FilterData>, from: int, end: int): Hash
    requires forall h :: from <= h < end ==> h in original
    decreases end - from
  {
    if end <= from then anchor
    else env.chained(env.filterHash(original[end - 1]), ChainedTo(env, anchor, original, from, end - 1))
  }

  /** The stored header before a height is that of the filters below it. */
  lemma {:induction false} StoredIsChained(table: map<int, FilterRow>, from: int, end: int, anchor: Hash,
      original: map<int, FilterData>, env: Env, h: int)
    requires FilterChain(table, from, end, anchor, original, env) && from < h <= end
    ensures (forall k :: from <= k < h ==> k in original) && h - 1 in table
    ensures table[h - 1].filterHeader == ChainedTo(env, anchor, original, from, h)
    decreases h - from
  {
    assert LinkHolds(table, from, h - 1, anchor, original, env);
    assert forall k :: from <= k < h ==> LinkHolds(table, from, k, anchor, original, env);
    if h - 1 > from {
      StoredIsChained(table, from, end, anchor, original, env, h - 1);
    } else {
      assert ChainedTo(env, anchor, original, from, h - 1) == anchor;
    }
  }

  /** Some peer links, and where the pinned peer is needed it is the first that does. */
  predicate Usable(kept: seq<nat>, answers: seq<Answer>, needsPinned: bool) {
    kept != [] && (needsPinned ==> kept[0] < |answers| && answers[kept[0]].pinned)
  }

  // ---------------------------------------------------------- the filter start

  /** Blocks before the wallet's first that filters are downloaded for too. */
  const SAFETY_GAP := 10

  /** The height of the first header at or after the time, or one past the tip. */
  ghost predicate IsFirstAt(headers: seq<Header>, unix: int, height: int) {
    && 0 <= height <= |headers|
    && (forall h :: 0 <= h < height ==> headers[h].timestamp < unix)
    && (height < |headers| ==> unix <= 0 || headers[height].timestamp >= unix)
  }

  /** Filters start the safety gap below that, or at genesis. */
  ghost predicate IsFilterStart(headers: seq<Header>, unix: int, start: int) {
    exists first :: FirstGives(headers, unix, first, start)
  }

  ghost predicate FirstGives(headers: seq<Header>, unix: int, first: int, start: int) {
    (if unix <= 0 then first == 0 else IsFirstAt(headers, unix, first)) && start == Max(first - SAFETY_GAP, 0)
  }

  method FirstHeaderAtOrAfter(headers: seq<Header>, unix: int) returns (height: int)
    ensures if unix <= 0 then height == 0 else IsFirstAt(headers, unix, height)
  {
    if unix <= 0 {
      return 0;
    }
    for h := 0 to |headers|
      invariant forall k :: 0 <= k < h ==> headers[k].timestamp < unix
    {
      if headers[h].timestamp >= unix {
        return h;
      }
    }
    return |headers|;
  }

  method FilterStartHeight(headers: seq<Header>, unix: int) returns (start: int)
    ensures IsFilterStart(headers, unix, start)
  {
    var first := FirstHeaderAtOrAfter(headers, unix);
    start := if first > SAFETY_GAP then first - SAFETY_GAP else 0;
    assert FirstGives(headers, unix, first, start);
  }

  /** The start is no lower than that: unless it is genesis, all blocks before the
      gap's end are older than the time, and the one there, if any, is not. */
  lemma FilterStartHighest(headers: seq<Header>, unix: int, start: int)
    requires IsFilterStart(headers, unix, start)
    ensures start > 0 ==> start + 10 <= |headers| && forall h :: 0 <= h < start + 10 ==> headers[h].timestamp < unix
    ensures 0 < start < |headers| - 10 ==> headers[start + 10].timestamp >= unix
    ensures start == 0 ==> unix <= 0 || |headers| <= 10 || exists h :: 0 <= h <= 10 && h < |headers| && headers[h].timestamp >= unix
  {
    var first :| FirstGives(headers, unix, first, start);
    assert start == 0 && unix > 0 && |headers| > 10 ==> first <= 10;
  }

  /** Every block that may concern the wallet has its filter downloaded, with the
      gap to spare. Once the chain has passed the wallet's creation time, adding
      headers does not move the start, nor does a rewind that keeps that header. */
  lemma FilterStartSettles(headers: seq<Header>, unix: int, start: int, height: nat, other: seq<Header>,
      otherStart: int)
    requires IsFilterStart(headers, unix, start) && height < |headers| && headers[height].timestamp >= unix
    ensures 0 <= start <= height && (start == 0 || start + SAFETY_GAP <= height)
    ensures height < |other| && headers[..height + 1] == other[..height + 1] && IsFilterStart(other, unix, otherStart) ==> otherStart == start
  {
    var first :| FirstGives(headers, unix, first, start);
    if height < |other| && headers[..height + 1] == other[..height + 1] && IsFilterStart(other, unix, otherStart) {
      var first' :| FirstGives(other, unix, first', otherStart);
      assert forall h :: 0 <= h <= height ==> headers[h] == headers[..height + 1][h] == other[h];
    }
  }
}
