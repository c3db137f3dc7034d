/**
 Rescanning the synced blocks for addresses watched after they were paid
 (internal/sync/rescan.go): what a rescan makes of the tables and what it finds.
 */
module RescanSteps {
  import opened Basics
  import opened Transactions
  import opened Ledger
  import opened Wallets
  import opened Chains
  import opened Scans
  import opened Stores
  import opened SyncState
  import opened Steps

  /** A queued job, the script it is for, and the first height to scan for it. */
  datatype Target = Target(job: Rescan, from: int, script: WatchScript)

  /** The scripts of the targets started at or below a height. */
  function Active(targets: seq<Target>, height: int): seq<WatchScript> {
    if targets == [] then []
    else
      var n := |targets| - 1;
      Active(targets[..n], height) + if targets[n].from > height then [] else [targets[n].script]
  }

  lemma {:induction false} ActiveMember(targets: seq<Target>, height: int, w: WatchScript)
    ensures w in Active(targets, height) <==> exists t :: t in targets && t.from <= height && t.script == w
  {
    if targets != [] {
      var n := |targets| - 1;
      assert targets == targets[..n] + [targets[n]];
      ActiveMember(targets[..n], height, w);
    }
  }

  /** The scripts a filter matches that the block was not matched for before. */
  function Fresh(env: Env, active: seq<WatchScript>, matched: set<MatchKey>, data: FilterData, hash: Hash, height: int): seq<WatchScript> {
    if active == [] then []
    else
      var w := active[|active| - 1];
      Fresh(env, active[..|active| - 1], matched, data, hash, height)
      + if env.hit(data, hash, w.script) && MatchKey(height, w.address) !in matched then [w] else []
  }

  lemma {:induction false} FreshMember(env: Env, active: seq<WatchScript>, matched: set<MatchKey>, data: FilterData,
      hash: Hash, height: int, w: WatchScript)
    ensures w in Fresh(env, active, matched, data, hash, height) <==>
              w in active && env.hit(data, hash, w.script) && MatchKey(height, w.address) !in matched
  {
    if active != [] {
      var n := |active| - 1;
      assert active == active[..n] + [active[n]];
      FreshMember(env, active[..n], matched, data, hash, height, w);
    }
  }

  /** The tables after the filter of a block was matched against the targets. */
  function RescanTables(t: Tables, env: Env, known: set<OutPoint>, mine: set<Script>, height: nat,
      targets: seq<Target>, data: FilterData): Tables
    requires height < |t.headers|
  {
    var found := Fresh(env, Active(targets, height), t.matches.Keys, data, t.headers[height].hash, height);
    if found == [] then t else MatchTables(t, env, known, mine, height, found)
  }

  /** The targets watch scripts of the wallet, under their own addresses. */
  ghost predicate TargetsWatched(env: Env, targets: seq<Target>, mine: set<Script>) {
    forall t :: t in targets ==> t.script.script in mine && t.script.script == env.scriptOf(t.script.address)
  }

  lemma FreshWatched(env: Env, targets: seq<Target>, mine: set<Script>, matched: set<MatchKey>, data: FilterData,
      hash: Hash, height: int)
    requires TargetsWatched(env, targets, mine)
    ensures forall n :: 0 <= n < |Fresh(env, Active(targets, height), matched, data, hash, height)| ==>
              var w := Fresh(env, Active(targets, height), matched, data, hash, height)[n];
              w.script in mine && w.script == env.scriptOf(w.address)
  {
    var found := Fresh(env, Active(targets, height), matched, data, hash, height);
    forall n | 0 <= n < |found|
      ensures found[n].script in mine && found[n].script == env.scriptOf(found[n].address)
    {
      FreshMember(env, Active(targets, height), matched, data, hash, height, found[n]);
      ActiveMember(targets, height, found[n]);
    }
  }

  /** A filter of the block that holds the script of a target started by then
      has the block recorded as matched for its address. */
  ghost predicate Recorded(env: Env, headers: seq<Header>, targets: seq<Target>, matched: set<MatchKey>, height: int,
      data: FilterData) {
    && 0 <= height < |headers|
    && forall t :: t in targets && t.from <= height && env.hit(data, headers[height].hash, t.script.script) ==>
         MatchKey(height, t.script.address) in matched
  }

  lemma RescanRecords(t: Tables, env: Env, known: set<OutPoint>, mine: set<Script>, height: nat, targets: seq<Target>,
      data: FilterData)
    requires height < |t.headers|
    ensures var after := RescanTables(t, env, known, mine, height, targets, data);
            && Recorded(env, t.headers, targets, after.matches.Keys, height, data)
            && t.matches.Keys <= after.matches.Keys && after.headers == t.headers && after.filters == t.filters
  {
    var hash := t.headers[height].hash;
    var found := Fresh(env, Active(targets, height), t.matches.Keys, data, hash, height);
    var after := RescanTables(t, env, known, mine, height, targets, data);
    hide Process;
    forall k | k in t.matches
      ensures k in after.matches
    {
      PutMatchesMember(t.matches, found, height, hash, k);
    }
    forall target | target in targets && target.from <= height && env.hit(data, hash, target.script.script)
      ensures MatchKey(height, target.script.address) in after.matches
    {
      ActiveMember(targets, height, target.script);
      FreshMember(env, Active(targets, height), t.matches.Keys, data, hash, height, target.script);
      PutMatchesMember(t.matches, found, height, hash, MatchKey(height, target.script.address));
      if target.script in found {
        var n :| 0 <= n < |found| && found[n] == target.script;
      }
    }
  }

  // ------------------------------------------ what a rescan adds to the scan

  /** The rows hold every transaction in the blocks from the start to below a
      height that can be told, from the blocks below its own, to touch the scripts. */
  ghost predicate Complete(blocks: seq<Block>, start: nat, rows: seq<TxRow>, mine: set<Script>, h: int) {
    forall k, tx :: start <= k < h && k < |blocks| && tx in blocks[k] && MustStore(blocks, k, tx, mine) ==> HasTx(rows, tx)
  }

  ghost predicate RowsWithin(rows: seq<TxRow>, start: int, end: int) {
    forall n :: 0 <= n < |rows| ==> start <= rows[n].height < end
  }

  lemma AgreeingPlaced(rows: seq<TxRow>, headers: seq<Header>, env: Env)
    requires TransactionsAgree(rows, headers, env)
    ensures Placed(BlocksOf(env, headers), rows)
  {
  }

  /** What is complete below a height makes every coin made below it known. */
  lemma CompleteKnows(blocks: seq<Block>, start: nat, rows: seq<TxRow>, mine: set<Script>, h: nat, listed: seq<TxRow>,
      pending: seq<Tx>)
    requires ValidBlocks(blocks) && Quiet(blocks, start, mine) && h <= |blocks|
    requires DistinctRows(rows) && Complete(blocks, start, rows, mine, h)
    requires multiset(listed) == multiset(rows)
    ensures CoinsBelow(blocks, h, mine).Keys <= CoinMap(TxsOf(listed) + pending, mine).Keys
  {
    var made := AllTxs(blocks[..h]);
    ValidPrefix(blocks, h);
    hide ValidBlocks;
    forall op | op in CoinMap(made, mine)
      ensures op in CoinMap(TxsOf(listed) + pending, mine)
    {
      var tx := CoinMaker(made, mine, op);
      AllTxsMember(blocks[..h], tx);
      var k :| 0 <= k < h && tx in blocks[..h][k];
      assert tx in blocks[k] && Pays(tx, mine);
      assert MustStore(blocks, k, tx, mine);
      var n :| 0 <= n < |rows| && rows[n].tx == tx;
      var m := ListedToo(rows, listed, n);
      var all := TxsOf(listed) + pending;
      assert all[m] == tx;
      CoinMade(made, mine, op, tx);
      CoinKey(all, mine, m, op);
    }
  }

  lemma ListedToo(rows: seq<TxRow>, listed: seq<TxRow>, n: nat) returns (m: nat)
    requires multiset(listed) == multiset(rows) && n < |rows|
    ensures m < |listed| && listed[m] == rows[n]
  {
    assert rows[n] in multiset(listed);
    m :| 0 <= m < |listed| && listed[m] == rows[n];
  }

  /** Processing a block with every coin below known completes it. */
  lemma ProcessedBlock(blocks: seq<Block>, start: nat, rows: seq<TxRow>, mine: set<Script>, h: nat,
      known: set<OutPoint>, hash: Hash)
    requires ValidBlocks(blocks) && start <= h < |blocks|
    requires Placed(blocks, rows) && Complete(blocks, start, rows, mine, h)
    requires CoinsBelow(blocks, h, mine).Keys <= known
    ensures Complete(blocks, start, Process(rows, blocks[h], known, mine, h, hash), mine, h + 1)
  {
    var after := Process(rows, blocks[h], known, mine, h, hash);
    BlockIds(blocks, h);
    hide ValidBlocks, Process;
    forall k, tx | start <= k < h + 1 && k < |blocks| && tx in blocks[k] && MustStore(blocks, k, tx, mine)
      ensures HasTx(after, tx)
    {
      if k == h {
        assert Relevant(tx, known, mine);
        ProcessMember(rows, blocks[h], known, mine, h, hash, TxRow(tx, h, hash));
        HasTxOf(after, TxRow(tx, h, hash));
      } else {
        ProcessHolds(blocks, rows, h, known, mine, hash, tx);
      }
    }
  }

  lemma NewMatches(table: map<MatchKey, MatchRow>, found: seq<WatchScript>, h: nat, hash: Hash)
    ensures forall k :: k in PutMatches(table, found, h, hash) ==> k in table || k.height == h
    ensures forall k :: k in table ==> k in PutMatches(table, found, h, hash)
  {
    forall k
      ensures k in PutMatches(table, found, h, hash) ==> k in table || k.height == h
      ensures k in table ==> k in PutMatches(table, found, h, hash)
    {
      PutMatchesMember(table, found, h, hash, k);
    }
  }

  // ------------------------------------------------ what a rescan cannot find

  /** The rows and the matches recorded when the rescan began. */
  datatype Before = Before(rows: seq<TxRow>, matched: set<MatchKey>)

  /** The original filter of the block holds the script of a target started by
      then, and no match of its address was recorded for the block. */
  ghost predicate FreshAt(env: Env, headers: seq<Header>, targets: seq<Target>, matched: set<MatchKey>,
      original: map<int, FilterData>, k: int) {
    && 0 <= k < |headers| && k in original
    && exists t :: t in targets && t.from <= k && env.hit(original[k], headers[k].hash, t.script.script) && MatchKey(k, t.script.address) !in matched
  }

  /** Every transaction to store for the scripts was stored before, or is in a
      block that is fresh for some target. */
  ghost predicate NothingLost(env: Env, headers: seq<Header>, start: nat, resume: int, mine: set<Script>,
      targets: seq<Target>, original: map<int, FilterData>, was: Before) {
    var blocks := BlocksOf(env, headers);
    forall k, tx :: start <= k < resume && k < |headers| && tx in blocks[k] && MustStore(blocks, k, tx, mine) ==>
      HasTx(was.rows, tx) || FreshAt(env, headers, targets, was.matched, original, k)
  }

  /** The blocks walked so far were processed exactly where they are fresh:
      nothing stored went, what came is of a fresh block below the height, and
      the matches recorded from it on are those of the start. */
  ghost predicate Walked(env: Env, t: Tables, targets: seq<Target>, original: map<int, FilterData>, was: Before,
      from: int, h: int) {
    && (forall tx :: HasTx(was.rows, tx) ==> HasTx(t.transactions, tx))
    && (forall k, tx :: 0 <= k < |t.headers| && tx in BlocksOf(env, t.headers)[k] && HasTx(t.transactions, tx) ==>
          HasTx(was.rows, tx) || (from <= k < h && FreshAt(env, t.headers, targets, was.matched, original, k)))
    && (forall key: MatchKey :: key.height >= h ==> (key in t.matches <==> key in was.matched))
  }

  /** The block at the height is processed exactly when it is fresh. */
  lemma FreshIs(env: Env, t: Tables, targets: seq<Target>, original: map<int, FilterData>, was: Before, from: int,
      h: nat)
    requires h < |t.headers| && h in original && Walked(env, t, targets, original, was, from, h)
    ensures FreshAt(env, t.headers, targets, was.matched, original, h) <==>
            Fresh(env, Active(targets, h), t.matches.Keys, original[h], t.headers[h].hash, h) != []
  {
    var hash := t.headers[h].hash;
    var found := Fresh(env, Active(targets, h), t.matches.Keys, original[h], hash, h);
    hide Active, Fresh, HasTx, BlocksOf;
    if found != [] {
      FreshMember(env, Active(targets, h), t.matches.Keys, original[h], hash, h, found[0]);
      ActiveMember(targets, h, found[0]);
    }
    if FreshAt(env, t.headers, targets, was.matched, original, h) {
      var target :| target in targets && target.from <= h && env.hit(original[h], hash, target.script.script)
        && MatchKey(h, target.script.address) !in was.matched;
      ActiveMember(targets, h, target.script);
      FreshMember(env, Active(targets, h), t.matches.Keys, original[h], hash, h, target.script);
    }
  }

  /** One more height walked. */
  lemma WalkedStep(env: Env, t: Tables, known: set<OutPoint>, mine: set<Script>, targets: seq<Target>,
      original: map<int, FilterData>, was: Before, from: int, h: nat)
    requires ValidBlocks(BlocksOf(env, t.headers)) && from <= h < |t.headers| && h in original
    requires Placed(BlocksOf(env, t.headers), t.transactions)
    requires Walked(env, t, targets, original, was, from, h)
    ensures Walked(env, RescanTables(t, env, known, mine, h, targets, original[h]), targets, original, was, from, h + 1)
  {
    var blocks, hash := BlocksOf(env, t.headers), t.headers[h].hash;
    var found := Fresh(env, Active(targets, h), t.matches.Keys, original[h], hash, h);
    var rows := Process(t.transactions, blocks[h], known, mine, h, hash);
    FreshIs(env, t, targets, original, was, from, h);
    NewMatches(t.matches, found, h, hash);
    assert blocks[h] == env.blockOf(hash);
    hide ValidBlocks, Process, BlocksOf, FreshAt, Active, Fresh, Placed, PutMatches;
    forall tx | HasTx(t.transactions, tx)
      ensures HasTx(rows, tx)
    {
      ProcessHolds(blocks, t.transactions, h, known, mine, hash, tx);
    }
    forall k, tx | 0 <= k < |t.headers| && tx in blocks[k] && HasTx(rows, tx) && !HasTx(t.transactions, tx)
      ensures k == h
    {
      NewAtHeight(blocks, t.transactions, h, known, mine, hash, k, tx);
    }
  }

  /** Where nothing is lost, matching one more block against the targets
      completes it. */
  lemma RescanStep(env: Env, t: Tables, start: nat, resume: int, mine: set<Script>, targets: seq<Target>,
      original: map<int, FilterData>, was: Before, from: int, h: nat, listed: seq<TxRow>, pending: seq<Tx>)
    requires ValidBlocks(BlocksOf(env, t.headers)) && start <= h < resume <= |t.headers| && h in original
    requires Placed(BlocksOf(env, t.headers), t.transactions) && multiset(listed) == multiset(t.transactions)
    requires Walked(env, t, targets, original, was, from, h)
    requires Quiet(BlocksOf(env, t.headers), start, mine)
    requires NothingLost(env, t.headers, start, resume, mine, targets, original, was)
    requires Complete(BlocksOf(env, t.headers), start, t.transactions, mine, h)
    ensures var after := RescanTables(t, env, CoinMap(TxsOf(listed) + pending, mine).Keys, mine, h, targets, original[h]);
            Complete(BlocksOf(env, t.headers), start, after.transactions, mine, h + 1)
  {
    var blocks, hash, known := BlocksOf(env, t.headers), t.headers[h].hash, CoinMap(TxsOf(listed) + pending, mine).Keys;
    FreshIs(env, t, targets, original, was, from, h);
    assert blocks[h] == env.blockOf(hash);
    hide ValidBlocks, Quiet, MustStore, BlocksOf, Process, CoinMap, Active, Fresh, FreshAt, HasTx;
    if Fresh(env, Active(targets, h), t.matches.Keys, original[h], hash, h) != [] {
      CompleteKnows(blocks, start, t.transactions, mine, h, listed, pending);
      ProcessedBlock(blocks, start, t.transactions, mine, h, known, hash);
    }
  }

  /** Below the lowest start nothing is fresh, so where nothing is lost nothing is missing there. */
  lemma RescanStart(env: Env, headers: seq<Header>, start: nat, resume: int, mine: set<Script>, targets: seq<Target>,
      original: map<int, FilterData>, was: Before, from: int)
    requires NothingLost(env, headers, start, resume, mine, targets, original, was) && from <= resume <= |headers|
    requires forall t :: t in targets ==> from <= t.from
    ensures Complete(BlocksOf(env, headers), start, was.rows, mine, from)
  {
  }

  /** What is complete in the end was stored before or is in a fresh block. */
  lemma RescanMisses(env: Env, t: Tables, start: nat, resume: int, mine: set<Script>, targets: seq<Target>,
      original: map<int, FilterData>, was: Before, from: int)
    requires resume <= |t.headers| && Walked(env, t, targets, original, was, from, resume)
    requires Complete(BlocksOf(env, t.headers), start, t.transactions, mine, resume)
    ensures NothingLost(env, t.headers, start, resume, mine, targets, original, was)
  {
    hide MustStore, FreshAt, HasTx, BlocksOf;
  }

  // --------------------------------------------------- from what a scan left

  function Late(targets: seq<Target>): set<Script> {
    set t | t in targets :: t.script.script
  }

  lemma LateTarget(targets: seq<Target>, s: Script) returns (t: Target)
    requires s in Late(targets)
    ensures t in targets && t.script.script == s
  {
    t :| t in targets && t.script.script == s;
  }

  lemma MustStoreMore(blocks: seq<Block>, k: nat, tx: Tx, s: Script, mine: set<Script>)
    requires ValidBlocks(blocks) && k <= |blocks| && s in mine && MustStore(blocks, k, tx, {s})
    ensures MustStore(blocks, k, tx, mine)
  {
    hide CoinMap, ValidBlocks, AllTxs, CoinsOf;
    if Pays(tx, {s}) {
      PaysMore(tx, s, mine);
    } else {
      var op :| op in tx.ins && op in CoinsBelow(blocks, k, {s});
      ValidPrefix(blocks, k);
      var maker := CoinMaker(AllTxs(blocks[..k]), {s}, op);
      CoinMade(AllTxs(blocks[..k]), mine, op, maker);
      var i :| 0 <= i < |tx.ins| && tx.ins[i] == op;
    }
  }

  /** Where the scan was complete for the other scripts, nothing is lost
      exactly when nothing is lost for the targets'. */
  lemma LateDecides(env: Env, headers: seq<Header>, start: nat, resume: int, mine: set<Script>, targets: seq<Target>,
      original: map<int, FilterData>, was: Before)
    requires ValidBlocks(BlocksOf(env, headers)) && resume <= |headers| && Late(targets) <= mine
    requires Complete(BlocksOf(env, headers), start, was.rows, mine - Late(targets), resume)
    ensures NothingLost(env, headers, start, resume, mine, targets, original, was) <==>
            NothingLost(env, headers, start, resume, Late(targets), targets, original, was)
  {
    var blocks := BlocksOf(env, headers);
    hide MustStore, ValidBlocks, BlocksOf, FreshAt, HasTx;
    forall k, tx | start <= k < resume && tx in blocks[k] && MustStore(blocks, k, tx, Late(targets))
      ensures MustStore(blocks, k, tx, mine)
    {
      var s := MustStoreFor(blocks, k, tx, Late(targets));
      MustStoreMore(blocks, k, tx, s, mine);
    }
    forall k, tx | start <= k < resume && tx in blocks[k] && MustStore(blocks, k, tx, mine) && !HasTx(was.rows, tx)
      ensures MustStore(blocks, k, tx, Late(targets))
    {
      var s := MustStoreFor(blocks, k, tx, mine);
      MustStoreMore(blocks, k, tx, s, if s in Late(targets) then Late(targets) else mine - Late(targets));
    }
  }

  /** Of rows placed among the scanned blocks, completeness up to the end is a scan up to it. */
  lemma CompleteIsScanned(env: Env, headers: seq<Header>, rows: seq<TxRow>, mine: set<Script>, start: nat, end: int)
    requires start <= end <= |headers| && Placed(BlocksOf(env, headers), rows) && RowsWithin(rows, start, end)
    ensures Complete(BlocksOf(env, headers), start, rows, mine, end) <==> ScannedTo(env, headers, rows, mine, start, end)
  {
    var blocks := BlocksOf(env, headers);
    BlocksPrefix(env, headers, end);
    hide MustStore, BlocksOf, HasTx;
    forall k, tx | start <= k < end && tx in blocks[k]
      ensures MustStore(blocks[..end], k, tx, mine) == MustStore(blocks, k, tx, mine)
    {
      MustStorePrefix(blocks, k, end, tx, mine);
    }
    assert forall k :: start <= k < end ==> blocks[..end][k] == blocks[k];
  }

  /** The blocks recorded as matched for a target hold nothing for its script
      that is not stored. */
  ghost predicate SeenWhereMatched(blocks: seq<Block>, targets: seq<Target>, was: Before) {
    forall t, k: nat, tx ::
      t in targets && MatchKey(k, t.script.address) in was.matched && k < |blocks| && tx in blocks[k] && MustStore(blocks, k, tx, {t.script.script}) ==>
        HasTx(was.rows, tx)
  }

  /** No block below the start of its rescan pays a target. */
  ghost predicate QuietTargets(blocks: seq<Block>, targets: seq<Target>) {
    forall t :: t in targets ==> t.from >= 0 && Quiet(blocks, t.from, {t.script.script})
  }

  /** The original filters miss no watched script from a height on. */
  ghost predicate TruthFrom(env: Env, headers: seq<Header>, mine: set<Script>, original: map<int, FilterData>,
      from: nat, end: int) {
    forall h :: from <= h < end && h < |headers| ==> h in original && Truthful(env, headers, mine, h, original[h])
  }

  /** A script no block up to a height pays is no reason to store a transaction there. */
  lemma NothingBelow(blocks: seq<Block>, from: nat, s: Script, k: nat, tx: Tx)
    requires ValidBlocks(blocks) && Quiet(blocks, from, {s}) && k < from && k < |blocks| && tx in blocks[k]
    ensures !MustStore(blocks, k, tx, {s})
  {
    forall made | made in AllTxs(blocks[..k])
      ensures !Pays(made, {s})
    {
      AllTxsMember(blocks[..k], made);
      var j :| 0 <= j < k && made in blocks[..k][j];
      assert made in blocks[j];
    }
    if MustStore(blocks, k, tx, {s}) {
      ValidPrefix(blocks, k);
      var op :| op in CoinsBelow(blocks, k, {s});
      var maker := CoinMaker(AllTxs(blocks[..k]), {s}, op);
    }
  }

  /** Nothing is lost where the filters miss nothing, each target starts at or
      below the first block paying it, and no block recorded as matched for it
      hides anything. */
  lemma NothingLostWhen(env: Env, headers: seq<Header>, start: nat, resume: int, mine: set<Script>,
      targets: seq<Target>, original: map<int, FilterData>, was: Before)
    requires ValidBlocks(BlocksOf(env, headers)) && resume <= |headers| && Late(targets) <= mine
    requires TruthFrom(env, headers, mine, original, start, resume)
    requires QuietTargets(BlocksOf(env, headers), targets) && SeenWhereMatched(BlocksOf(env, headers), targets, was)
    ensures NothingLost(env, headers, start, resume, Late(targets), targets, original, was)
  {
    var blocks := BlocksOf(env, headers);
    hide MustStore, ValidBlocks, Quiet, HasTx;
    forall k, tx | start <= k < resume && tx in blocks[k] && MustStore(blocks, k, tx, Late(targets)) && !HasTx(was.rows, tx)
      ensures FreshAt(env, headers, targets, was.matched, original, k)
    {
      var s := MustStoreFor(blocks, k, tx, Late(targets));
      var t := LateTarget(targets, s);
      if t.from > k {
        NothingBelow(blocks, t.from, s, k, tx);
      }
      assert tx in env.blockOf(headers[k].hash);
    }
  }

  // ------------------------------------------------------- the run of a rescan

  /** Every height walked so far is recorded for the targets its filter matches. */
  ghost predicate AllRecorded(env: Env, headers: seq<Header>, targets: seq<Target>, matched: set<MatchKey>,
      original: map<int, FilterData>, from: int, h: int) {
    forall k :: from <= k < h ==> k in original && Recorded(env, headers, targets, matched, k, original[k])
  }

  /** What is to be found of the scripts can be: no payment lies below the
      filter start, and nothing is lost. */
  ghost predicate Findable(env: Env, headers: seq<Header>, start: nat, resume: int, mine: set<Script>,
      targets: seq<Target>, original: map<int, FilterData>, was: Before) {
    Quiet(BlocksOf(env, headers), start, mine) && NothingLost(env, headers, start, resume, mine, targets, original, was)
  }

  /** The state of a running rescan below a height: the heights walked are
      recorded, they were processed exactly where fresh and, where everything
      can be found, all of it is so far. */
  ghost predicate Going(env: Env, t: Tables, resume: int, start: nat, mine: set<Script>, targets: seq<Target>,
      original: map<int, FilterData>, was: Before, from: int, h: int, finds: bool) {
    && 0 <= h <= resume <= |t.headers|
    && AllRecorded(env, t.headers, targets, t.matches.Keys, original, from, h)
    && Walked(env, t, targets, original, was, from, h)
    && (RowsWithin(was.rows, start, resume) ==> RowsWithin(t.transactions, start, resume))
    && (finds ==> Findable(env, t.headers, start, resume, mine, targets, original, was)
                  && Complete(BlocksOf(env, t.headers), start, t.transactions, mine, h))
  }

  lemma GoingStart(env: Env, t: Tables, resume: int, start: nat, mine: set<Script>, targets: seq<Target>,
      original: map<int, FilterData>, was: Before, from: int, finds: bool)
    requires 0 <= from <= resume <= |t.headers| && was == Before(t.transactions, t.matches.Keys)
    requires forall t :: t in targets ==> from <= t.from
    requires finds ==> Findable(env, t.headers, start, resume, mine, targets, original, was)
    ensures Going(env, t, resume, start, mine, targets, original, was, from, from, finds)
  {
    hide Quiet, Recorded, BlocksOf, NothingLost, Complete, FreshAt, HasTx;
    if finds {
      RescanStart(env, t.headers, start, resume, mine, targets, original, was, from);
    }
  }

  lemma GoingStep(env: Env, t: Tables, resume: int, start: nat, mine: set<Script>, targets: seq<Target>,
      original: map<int, FilterData>, was: Before, from: int, h: int, finds: bool, listed: seq<TxRow>, pending: seq<Tx>)
    requires ValidBlocks(BlocksOf(env, t.headers)) && start <= from <= h < resume && h in original
    requires Placed(BlocksOf(env, t.headers), t.transactions) && multiset(listed) == multiset(t.transactions)
    requires Going(env, t, resume, start, mine, targets, original, was, from, h, finds)
    ensures Going(env, RescanTables(t, env, CoinMap(TxsOf(listed) + pending, mine).Keys, mine, h, targets, original[h]),
              resume, start, mine, targets, original, was, from, h + 1, finds)
  {
    var known := CoinMap(TxsOf(listed) + pending, mine).Keys;
    hide ValidBlocks, Quiet, NothingLost, Complete, BlocksOf, RescanTables, CoinMap, Placed, Walked, RowsWithin;
    RescanRecords(t, env, known, mine, h, targets, original[h]);
    WalkedStep(env, t, known, mine, targets, original, was, from, h);
    StaysWithin(env, t, known, mine, h, targets, original[h], start, resume);
    if finds {
      RescanStep(env, t, start, resume, mine, targets, original, was, from, h, listed, pending);
    }
  }

  lemma StaysWithin(env: Env, t: Tables, known: set<OutPoint>, mine: set<Script>, h: nat, targets: seq<Target>,
      data: FilterData, start: int, end: int)
    requires ValidBlocks(BlocksOf(env, t.headers)) && Placed(BlocksOf(env, t.headers), t.transactions)
    requires start <= h < end && h < |t.headers|
    ensures RowsWithin(t.transactions, start, end) ==> RowsWithin(RescanTables(t, env, known, mine, h, targets, data).transactions, start, end)
  {
    var blocks, hash := BlocksOf(env, t.headers), t.headers[h].hash;
    var rows := Process(t.transactions, blocks[h], known, mine, h, hash);
    assert blocks[h] == env.blockOf(hash);
    hide ValidBlocks, Process, BlocksOf, Placed, Active, Fresh, PutMatches;
    forall n | 0 <= n < |rows|
      ensures rows[n] in t.transactions || rows[n].height == h
    {
      ProcessAdds(blocks, t.transactions, h, known, mine, hash, rows[n]);
    }
  }

  /** After a whole rescan everything to store is stored exactly when nothing
      was lost. From a scan complete for the other scripts it makes one complete
      for all exactly when nothing was lost for the targets' scripts. */
  ghost predicate FindsExactly(env: Env, headers: seq<Header>, rows: seq<TxRow>, resume: int, start: nat,
      mine: set<Script>, targets: seq<Target>, original: map<int, FilterData>, was: Before) {
    && (Complete(BlocksOf(env, headers), start, rows, mine, resume) <==>
        NothingLost(env, headers, start, resume, mine, targets, original, was))
    && (ScannedTo(env, headers, was.rows, mine - Late(targets), start, resume) ==>
          (ScannedTo(env, headers, rows, mine, start, resume) <==>
           NothingLost(env, headers, start, resume, Late(targets), targets, original, was)))
  }

  lemma GoingEnd(env: Env, t: Tables, resume: int, start: nat, mine: set<Script>, targets: seq<Target>,
      original: map<int, FilterData>, was: Before, from: int, finds: bool)
    requires ValidBlocks(BlocksOf(env, t.headers)) && start <= resume && Late(targets) <= mine
    requires Placed(BlocksOf(env, t.headers), t.transactions) && Placed(BlocksOf(env, t.headers), was.rows)
    requires Going(env, t, resume, start, mine, targets, original, was, from, resume, finds)
    ensures AllRecorded(env, t.headers, targets, t.matches.Keys, original, from, resume)
    ensures (Findable(env, t.headers, start, resume, mine, targets, original, was) ==> finds) && Quiet(BlocksOf(env, t.headers), start, mine) ==>
              FindsExactly(env, t.headers, t.transactions, resume, start, mine, targets, original, was)
  {
    hide AllRecorded, Walked, Placed, Quiet, NothingLost, Complete, BlocksOf, ValidBlocks, ScannedTo, RowsWithin, Late;
    if Complete(BlocksOf(env, t.headers), start, t.transactions, mine, resume) {
      RescanMisses(env, t, start, resume, mine, targets, original, was, from);
    }
    if ScannedTo(env, t.headers, was.rows, mine - Late(targets), start, resume) {
      ScannedWithin(env, t.headers, was.rows, mine - Late(targets), start, resume);
      CompleteIsScanned(env, t.headers, was.rows, mine - Late(targets), start, resume);
      CompleteIsScanned(env, t.headers, t.transactions, mine, start, resume);
      LateDecides(env, t.headers, start, resume, mine, targets, original, was);
    }
  }

  lemma ScannedWithin(env: Env, headers: seq<Header>, rows: seq<TxRow>, mine: set<Script>, start: nat, end: int)
    requires ScannedTo(env, headers, rows, mine, start, end)
    ensures RowsWithin(rows, start, end)
  {
  }

  /** Without the claim to find everything, other scripts may be watched meanwhile. */
  lemma GoingUnclaimed(env: Env, t: Tables, resume: int, start: nat, mine: set<Script>, targets: seq<Target>,
      original: map<int, FilterData>, was: Before, from: int, h: int, finds: bool)
    requires Going(env, t, resume, start, mine, targets, original, was, from, h, finds)
    ensures forall other: set<Script> :: Going(env, t, resume, start, other, targets, original, was, from, h, false)
  {
  }

  // -------------------------------------------------- filters downloaded again

  /** What a peer offers for a range: the filter header its answer follows, and the filters. */
  datatype Offer = Offer(prev: Option<Hash>, filters: Option<seq<FilterData>>)

  /** The header the offered filters are chained from: the stored one, if there is one. */
  function LinkOf(known: Option<Hash>, offer: Offer): Option<Hash> {
    if known.Some? then known else offer.prev
  }

  /** The offer reproduces the stored filter headers. */
  predicate Genuine(table: map<int, FilterRow>, env: Env, start: int, known: Option<Hash>, offer: Offer) {
    LinkOf(known, offer).Some? && offer.filters.Some? && Reproduces(table, env, start, LinkOf(known, offer).value, offer.filters.value)
  }

  /** The peer answered with filters that do not link to the stored headers. */
  predicate Forged(table: map<int, FilterRow>, env: Env, start: int, known: Option<Hash>, offer: Offer) {
    LinkOf(known, offer).Some? && offer.filters.Some? && !Reproduces(table, env, start, LinkOf(known, offer).value, offer.filters.value)
  }

  /** The filters the stored chain was built from, chained from the link it was
      built from, reproduce it. */
  lemma {:induction false} OriginalsReproduce(table: map<int, FilterRow>, from: int, end: int, anchor: Hash, original: map<int, FilterData>, env: Env,
                                              start: int, filters: seq<FilterData>)
    requires FilterChain(table, from, end, anchor, original, env) && from <= start && start + |filters| <= end
    requires forall h :: start <= h < start + |filters| ==> h in original && filters[h - start] == original[h]
    ensures Reproduces(table, env, start, LinkBefore(table, from, start, anchor), filters)
    decreases |filters|
  {
    if filters != [] {
      assert LinkHolds(table, from, start, anchor, original, env);
      assert LinkBefore(table, from, start + 1, anchor) == table[start].filterHeader;
      OriginalsReproduce(table, from, end, anchor, original, env, start + 1, filters[1..]);
    }
  }

  /** An offer of a range is genuine exactly when it offers the filters the
      stored chain was built from, chained from the same header. */
  lemma GenuineIsOriginal(table: map<int, FilterRow>, from: int, end: int, anchor: Hash, original: map<int, FilterData>, env: Env,
                          start: int, known: Option<Hash>, offer: Offer)
    requires IdealFilterHash(env) && FilterChain(table, from, end, anchor, original, env)
    requires offer.filters.Some? ==> offer.filters.value != [] && from <= start && start + |offer.filters.value| <= end
    ensures Genuine(table, env, start, known, offer) <==>
              && LinkOf(known, offer) == Some(LinkBefore(table, from, start, anchor)) && offer.filters.Some?
              && forall h :: start <= h < start + |offer.filters.value| ==> h in original && offer.filters.value[h - start] == original[h]
  {
    hide FilterChain, Reproduces, LinkBefore, IdealFilterHash;
    if Genuine(table, env, start, known, offer) {
      ChainPinsFilters(table, from, end, anchor, original, env, start, LinkOf(known, offer).value, offer.filters.value);
    } else if offer.filters.Some? {
      if forall h :: start <= h < start + |offer.filters.value| ==> h in original && offer.filters.value[h - start] == original[h] {
        OriginalsReproduce(table, from, end, anchor, original, env, start, offer.filters.value);
      }
    }
  }

  /** Where the header below is stored an offer passes exactly when it is the
      original filters, whatever header it claims to follow; where it is not, the
      offer must also name the header they are chained from. */
  lemma GenuineByLink(table: map<int, FilterRow>, from: int, end: int, anchor: Hash, original: map<int, FilterData>,
      env: Env, start: int, offer: Offer)
    requires IdealFilterHash(env) && FilterChain(table, from, end, anchor, original, env)
    requires offer.filters.Some? && offer.filters.value != [] && from <= start && start + |offer.filters.value| <= end
    ensures var same := forall h :: start <= h < start + |offer.filters.value| ==> h in original && offer.filters.value[h - start] == original[h];
            && (start > from ==>
                  start - 1 in table && (Genuine(table, env, start, Some(table[start - 1].filterHeader), offer) <==> same))
            && (start == from ==> (Genuine(table, env, start, None, offer) <==> same && offer.prev == Some(anchor)))
  {
    hide Reproduces, IdealFilterHash, Genuine, Contiguous;
    if start > from {
      assert LinkHolds(table, from, start - 1, anchor, original, env);
      GenuineIsOriginal(table, from, end, anchor, original, env, start, Some(table[start - 1].filterHeader), offer);
    } else {
      GenuineIsOriginal(table, from, end, anchor, original, env, start, None, offer);
    }
  }

  /** A peer is dropped for what it offers exactly when it answered and what it
      answered, with the header it follows, is not what the stored chain was built from. */
  lemma ForgedIs(table: map<int, FilterRow>, from: int, end: int, anchor: Hash, original: map<int, FilterData>,
      env: Env, start: int, known: Option<Hash>, offer: Offer)
    requires IdealFilterHash(env) && FilterChain(table, from, end, anchor, original, env)
    requires offer.filters.Some? ==> offer.filters.value != [] && from <= start && start + |offer.filters.value| <= end
    ensures Forged(table, env, start, known, offer) <==>
              && offer.filters.Some? && LinkOf(known, offer).Some?
              && !(LinkOf(known, offer) == Some(LinkBefore(table, from, start, anchor))
                   && forall h :: start <= h < start + |offer.filters.value| ==> h in original && offer.filters.value[h - start] == original[h])
  {
    hide FilterChain, Reproduces, LinkBefore, IdealFilterHash, LinkOf;
    GenuineIsOriginal(table, from, end, anchor, original, env, start, known, offer);
  }
}

/** The rescan itself. */
module Rescans {
  import opened Basics
  import opened Sorting
  import opened Transactions
  import opened Ledger
  import opened Wallets
  import opened Chains
  import opened Scans
  import opened Stores
  import opened SyncState
  import opened Steps
  import opened Engines
  import opened RescanSteps

  /** The first height to scan for a job: the highest of its queued height, the
      lowest stored payment to its address and the filter start. */
  function StartOf(job: Rescan, firstPaid: map<Address, int>, filterStart: int): int {
    Max(Max(job.from, if job.address in firstPaid then firstPaid[job.address] else 0), filterStart)
  }

  /** The job has blocks to scan: its address is watched and was paid. */
  predicate HasWork(job: Rescan, scripts: seq<WatchScript>, firstPaid: map<Address, int>, filterStart: int, end: int) {
    && (exists i :: 0 <= i < |scripts| && scripts[i].address == job.address)
    && job.address in firstPaid && StartOf(job, firstPaid, filterStart) <= end
  }

  predicate TargetOf(t: Target, scripts: seq<WatchScript>, firstPaid: map<Address, int>, filterStart: int) {
    t.script in scripts && t.script.address == t.job.address && t.from == StartOf(t.job, firstPaid, filterStart)
  }

  /** The target is for a watched address with a stored payment, and starts at
      the highest of its queued height, the lowest such payment and the filter start. */
  predicate StartsHighest(t: Target, scripts: seq<WatchScript>, firstPaid: map<Address, int>, filterStart: int) {
    && t.script in scripts && t.script.address == t.job.address && t.job.address in firstPaid
    && t.from >= t.job.from && t.from >= firstPaid[t.job.address] && t.from >= filterStart
    && (t.from == t.job.from || t.from == firstPaid[t.job.address] || t.from == filterStart)
  }

  /** There is nothing to scan for the job: its address is not watched, has no
      stored payment, or one of the three heights lies above the end. */
  predicate NothingToScan(job: Rescan, scripts: seq<WatchScript>, firstPaid: map<Address, int>, filterStart: int,
      end: int)
  {
    || (forall i :: 0 <= i < |scripts| ==> scripts[i].address != job.address)
    || job.address !in firstPaid
    || job.from > end || firstPaid[job.address] > end || filterStart > end
  }

  /** These are the targets and the idle jobs, stored payments being at heights from 0 on. */
  lemma StartsAndIdle(job: Rescan, t: Target, scripts: seq<WatchScript>, firstPaid: map<Address, int>, filterStart: int,
      end: int)
    requires filterStart >= 0
    ensures HasWork(job, scripts, firstPaid, filterStart, end) <==> !NothingToScan(job, scripts, firstPaid, filterStart, end)
    ensures TargetOf(t, scripts, firstPaid, filterStart) && t.job.address in firstPaid ==> StartsHighest(t, scripts, firstPaid, filterStart)
  {
  }

  predicate StartsBefore(a: Target, b: Target) { a.from <= b.from }

  /** Sorts out the jobs with nothing to scan; the others, ordered by where they start, are the targets. */
  method RescanTargets(jobs: seq<Rescan>, scripts: seq<WatchScript>, firstPaid: map<Address, int>, filterStart: int,
      end: int)
    returns (targets: seq<Target>, idle: seq<Rescan>)
    ensures forall t :: t in targets ==> t.job in jobs && HasWork(t.job, scripts, firstPaid, filterStart, end) && TargetOf(t, scripts, firstPaid, filterStart)
    ensures forall j :: j in jobs && HasWork(j, scripts, firstPaid, filterStart, end) ==> exists t :: t in targets && t.job == j
    ensures forall j :: j in idle <==> j in jobs && !HasWork(j, scripts, firstPaid, filterStart, end)
    ensures forall i, j :: 0 <= i < j < |targets| ==> targets[i].from <= targets[j].from
    ensures filterStart >= 0 ==> forall t :: t in targets ==> StartsHighest(t, scripts, firstPaid, filterStart)
    ensures filterStart >= 0 ==> forall j :: j in idle <==> j in jobs && NothingToScan(j, scripts, firstPaid, filterStart, end)
  {
    hide StartsHighest, NothingToScan, StartOf, Sort;
    var byAddress: map<Address, WatchScript> := map[];
    for i := 0 to |scripts|
      invariant forall a :: a in byAddress <==> exists k :: 0 <= k < i && scripts[k].address == a
      invariant forall a :: a in byAddress ==> byAddress[a] in scripts && byAddress[a].address == a
    {
      byAddress := byAddress[scripts[i].address := scripts[i]];
    }
    var list: seq<Target> := [];
    idle := [];
    for n := 0 to |jobs|
      invariant forall t :: t in list ==> t.job in jobs && HasWork(t.job, scripts, firstPaid, filterStart, end) && TargetOf(t, scripts, firstPaid, filterStart)
      invariant forall k :: 0 <= k < n && HasWork(jobs[k], scripts, firstPaid, filterStart, end) ==> exists t :: t in list && t.job == jobs[k]
      invariant forall j :: j in idle <==> j in jobs[..n] && !HasWork(j, scripts, firstPaid, filterStart, end)
    {
      var j := jobs[n];
      assert jobs[..n + 1] == jobs[..n] + [j];
      var from := StartOf(j, firstPaid, filterStart);
      if j.address !in byAddress || j.address !in firstPaid || from > end {
        idle := idle + [j];
      } else {
        ghost var before := list;
        list := list + [Target(j, from, byAddress[j.address])];
        assert list[|before|].job == j;
      }
    }
    assert jobs[..|jobs|] == jobs;
    targets := Sort(StartsBefore, list);
    SortSorted(StartsBefore, list);
    SameTargets(targets, list);
    if filterStart >= 0 {
      AllStartHighest(targets, idle, jobs, scripts, firstPaid, filterStart, end);
    }
  }

  lemma SameTargets(a: seq<Target>, b: seq<Target>)
    requires multiset(a) == multiset(b)
    ensures forall t :: t in a <==> t in b
  {
    forall t
      ensures t in a <==> t in b
    {
      assert t in multiset(a) <==> t in multiset(b);
    }
  }

  lemma AllStartHighest(targets: seq<Target>, idle: seq<Rescan>, jobs: seq<Rescan>, scripts: seq<WatchScript>,
      firstPaid: map<Address, int>, filterStart: int, end: int)
    requires filterStart >= 0
    requires forall t :: t in targets ==> HasWork(t.job, scripts, firstPaid, filterStart, end) && TargetOf(t, scripts, firstPaid, filterStart)
    requires forall j :: j in idle <==> j in jobs && !HasWork(j, scripts, firstPaid, filterStart, end)
    ensures forall t :: t in targets ==> StartsHighest(t, scripts, firstPaid, filterStart)
    ensures forall j :: j in idle <==> j in jobs && NothingToScan(j, scripts, firstPaid, filterStart, end)
  {
    hide TargetOf, StartsHighest, NothingToScan, StartOf;
    forall t | t in targets
      ensures StartsHighest(t, scripts, firstPaid, filterStart)
    {
      StartsAndIdle(t.job, t, scripts, firstPaid, filterStart, end);
    }
    var any := Target(Rescan("", 0), 0, WatchScript("", "", []));
    forall j
      ensures HasWork(j, scripts, firstPaid, filterStart, end) <==> !NothingToScan(j, scripts, firstPaid, filterStart, end)
    {
      StartsAndIdle(j, any, scripts, firstPaid, filterStart, end);
    }
  }

  /** Chains the filters one by one and compares every link with the stored one. */
  method CheckStoredChain(e: Engine, start: int, prev: Hash, filters: seq<FilterData>) returns (ok: bool)
    ensures ok == Reproduces(e.store.filters, e.env, start, prev, filters)
  {
    var link := prev;
    for i := 0 to |filters|
      invariant Reproduces(e.store.filters, e.env, start, prev, filters) == Reproduces(e.store.filters, e.env, start + i, link, filters[i..])
    {
      var stored := e.store.FilterHeaderAt(start + i);
      assert filters[i..][0] == filters[i] && filters[i..][1..] == filters[i + 1..];
      if stored.None? {
        return false;
      }
      link := e.env.chained(e.env.filterHash(filters[i]), link);
      if link != stored.value {
        return false;
      }
    }
    return true;
  }

  /** Takes the first genuine offer of the peers in turn, and drops those whose
      filters do not link. */
  method RefetchFilters(e: Engine, start: nat, offers: seq<Offer>)
    returns (filters: Option<seq<FilterData>>, dropped: set<nat>)
    ensures filters.None? ==> Takes(e.store.filters, e.env, start, KnownBefore(e, start), offers, |offers|, dropped)
    ensures filters.Some? ==> exists i: nat :: i < |offers| && offers[i].filters == filters
                                && Takes(e.store.filters, e.env, start, KnownBefore(e, start), offers, i, dropped)
  {
    var known := if start == 0 then Some(ZERO_HASH) else e.store.FilterHeaderAt(start - 1);
    filters, dropped := None, {};
    var i := 0;
    while i < |offers| && filters.None?
      invariant i <= |offers|
      invariant forall k :: 0 <= k < i ==> !Genuine(e.store.filters, e.env, start, known, offers[k])
      invariant forall k :: k in dropped <==> 0 <= k < i && Forged(e.store.filters, e.env, start, known, offers[k])
      invariant filters.Some? ==> i < |offers| && offers[i].filters == filters && Genuine(e.store.filters, e.env, start, known, offers[i])
      decreases filters.None?, |offers| - i
    {
      var from := LinkOf(known, offers[i]);
      var ok := false;
      if from.Some? && offers[i].filters.Some? {
        ok := CheckStoredChain(e, start, from.value, offers[i].filters.value);
      }
      if ok {
        filters := offers[i].filters;
      } else {
        if from.Some? && offers[i].filters.Some? {
          dropped := dropped + {i};
        }
        i := i + 1;
      }
    }
    assert Takes(e.store.filters, e.env, start, KnownBefore(e, start), offers, i, dropped);
  }

  /** The stored filter header before the range, if there is one. */
  function KnownBefore(e: Engine, start: nat): Option<Hash>
    reads e.store
  {
    if start == 0 then Some(ZERO_HASH) else e.store.FilterHeaderAt(start - 1)
  }

  /** The first genuine offer is the i-th, or there is none and i is past the
      end; the peers before it whose filters do not link are dropped. */
  ghost predicate Takes(table: map<int, FilterRow>, env: Env, start: int, known: Option<Hash>, offers: seq<Offer>, i: nat, dropped: set<nat>) {
    && i <= |offers|
    && (i < |offers| ==> Genuine(table, env, start, known, offers[i]))
    && (forall k :: 0 <= k < i ==> !Genuine(table, env, start, known, offers[k]))
    && (forall k :: k in dropped <==> 0 <= k < i && Forged(table, env, start, known, offers[k]))
  }

  method ActiveScripts(targets: seq<Target>, height: int) returns (active: seq<WatchScript>)
    ensures active == Active(targets, height)
  {
    active := [];
    for n := 0 to |targets|
      invariant active == Active(targets[..n], height)
    {
      assert targets[..n + 1][..n] == targets[..n];
      if targets[n].from <= height {
        active := active + [targets[n].script];
      }
    }
    assert targets[..|targets|] == targets;
  }

  method FreshScripts(env: Env, active: seq<WatchScript>, matched: set<MatchKey>, data: FilterData, hash: Hash,
      height: int) returns (found: seq<WatchScript>)
    ensures found == Fresh(env, active, matched, data, hash, height)
  {
    found := [];
    for n := 0 to |active|
      invariant found == Fresh(env, active[..n], matched, data, hash, height)
    {
      assert active[..n + 1][..n] == active[..n];
      if env.hit(data, hash, active[n].script) && MatchKey(height, active[n].address) !in matched {
        found := found + [active[n]];
      }
    }
    assert active[..|active|] == active;
  }

  method NoteMatches(matched: set<MatchKey>, found: seq<WatchScript>, height: int) returns (after: set<MatchKey>)
    ensures forall k :: k in after <==> k in matched || exists n :: 0 <= n < |found| && k == MatchKey(height, found[n].address)
  {
    after := matched;
    for n := 0 to |found|
      invariant forall k :: k in after <==> k in matched || exists i :: 0 <= i < n && k == MatchKey(height, found[i].address)
    {
      after := after + {MatchKey(height, found[n].address)};
    }
  }

  lemma NotedKeys(table: map<MatchKey, MatchRow>, found: seq<WatchScript>, height: int, hash: Hash, after: set<MatchKey>)
    requires forall k :: k in after <==> k in table || exists n :: 0 <= n < |found| && k == MatchKey(height, found[n].address)
    ensures after == PutMatches(table, found, height, hash).Keys
  {
    forall k
      ensures k in after <==> k in PutMatches(table, found, height, hash)
    {
      PutMatchesMember(table, found, height, hash, k);
    }
  }

  /** One height of the walk: the targets started by then are looked for in the
      filter, those with a recorded match are left aside, and if any is left the
      block is fetched, processed and recorded for them. */
  method RescanBlock(e: Engine, height: int, data: FilterData, targets: seq<Target>, matched: set<MatchKey>,
      reachable: bool) returns (after: set<MatchKey>, ok: bool)
    requires e.Valid() && TargetsWatched(e.env, targets, e.wallet.scriptIndex.Keys) && matched == e.store.matches.Keys
    modifies e.store`transactions, e.store`pending, e.store`matches, e.wallet
    ensures e.Valid() && after == e.store.matches.Keys
    ensures e.wallet.scripts == old(e.wallet.scripts) && e.wallet.scriptIndex == old(e.wallet.scriptIndex)
    ensures ok ==> 0 <= height < |e.chain.headers|
    ensures e.Snapshot() == if ok then RescanTables(old(e.Snapshot()), e.env, old(e.wallet.outpoints).Keys, e.wallet.scriptIndex.Keys, height, targets, data)
                            else old(e.Snapshot())
  {
    hide Engine.Valid, PutMatches, Active, Process;
    after, ok := matched, false;
    var hdr := e.chain.HeaderAt(height);
    if hdr.Some? {
      var active := ActiveScripts(targets, height);
      if active == [] {
        ok := true;
        assert Fresh(e.env, active, matched, data, hdr.value.hash, height) == [];
      } else if e.env.decodes(data) {
        var found := FreshScripts(e.env, active, matched, data, hdr.value.hash, height);
        FreshWatched(e.env, targets, e.wallet.scriptIndex.Keys, matched, data, hdr.value.hash, height);
        if found == [] {
          ok := true;
        } else if reachable {
          after := NoteMatches(matched, found, height);
          NotedKeys(e.store.matches, found, height, hdr.value.hash, after);
          e.ProcessMatched(height, found);
          assert e.Snapshot().matches == PutMatches(old(e.store.matches), found, height, hdr.value.hash);
          ok := true;
        }
      }
    }
  }

  ghost predicate GoingAt(e: Engine, targets: seq<Target>, was: Before, from: int, h: int, finds: bool)
    reads e, e.chain`headers, e.store`filters, e.store`matches, e.store`transactions, e.wallet`scriptIndex
  {
    Going(e.env, e.Snapshot(), e.resume, e.filterStart, e.wallet.scriptIndex.Keys, targets, e.original, was, from, h, finds)
  }

  /** One height of a rescan. */
  method RescanHeight(e: Engine, h: int, data: FilterData, targets: seq<Target>, matched: set<MatchKey>,
      reachable: bool, ghost was: Before, ghost from: nat, ghost finds: bool)
    returns (after: set<MatchKey>, ok: bool)
    requires e.Valid() && TargetsWatched(e.env, targets, e.wallet.scriptIndex.Keys) && matched == e.store.matches.Keys
    requires e.filterStart <= from <= h < e.resume && h in e.original && e.original[h] == data
    requires GoingAt(e, targets, was, from, h, finds)
    modifies e.store`transactions, e.store`pending, e.store`matches, e.wallet
    ensures e.Valid() && after == e.store.matches.Keys
    ensures e.wallet.scripts == old(e.wallet.scripts) && e.wallet.scriptIndex == old(e.wallet.scriptIndex)
    ensures ok ==> GoingAt(e, targets, was, from, h + 1, finds)
  {
    hide Engine.Valid, Going, RescanTables, TargetsWatched;
    KeepsGoing(e, h, targets, was, from, finds);
    after, ok := RescanBlock(e, h, data, targets, matched, reachable);
  }

  lemma KeepsGoing(e: Engine, h: int, targets: seq<Target>, was: Before, from: nat, finds: bool)
    requires e.Valid() && e.filterStart <= from <= h < e.resume && h in e.original
    requires GoingAt(e, targets, was, from, h, finds)
    ensures h < |e.chain.headers|
    ensures Going(e.env, RescanTables(e.Snapshot(), e.env, e.wallet.outpoints.Keys, e.wallet.scriptIndex.Keys, h, targets, e.original[h]),
              e.resume, e.filterStart, e.wallet.scriptIndex.Keys, targets, e.original, was, from, h + 1, finds)
  {
    KnownFromTables(e);
    e.ValidChain();
    RowsPlaced(e);
    hide Engine.Valid, Going, RescanTables, ValidBlocks, BlocksOf, CoinMap, PendingTxs, Placed;
    GoingStep(e.env, e.Snapshot(), e.resume, e.filterStart, e.wallet.scriptIndex.Keys, targets, e.original, was, from, h,
      finds, e.store.Transactions(), PendingTxs(e.store.pending));
  }

  lemma KnownFromTables(e: Engine)
    requires e.Valid()
    ensures e.wallet.outpoints.Keys == CoinMap(TxsOf(e.store.Transactions()) + PendingTxs(e.store.pending), e.wallet.scriptIndex.Keys).Keys
    ensures e.Assumptions() && e.chain.Valid()
  {
  }

  lemma RowsPlaced(e: Engine)
    requires e.Valid()
    ensures Placed(BlocksOf(e.env, e.chain.headers), e.store.transactions)
  {
    AgreeingPlaced(e.store.transactions, e.chain.headers, e.env);
  }

  /** The filters of one batch of a rescan. */
  method RescanFilters(e: Engine, fStart: int, filters: seq<FilterData>, targets: seq<Target>, matched: set<MatchKey>,
      reachable: int -> bool, ghost was: Before, ghost from: nat, ghost finds: bool)
    returns (after: set<MatchKey>, ok: bool)
    requires e.Valid() && TargetsWatched(e.env, targets, e.wallet.scriptIndex.Keys) && matched == e.store.matches.Keys
    requires e.filterStart <= from <= fStart && fStart + |filters| <= e.resume
    requires forall h :: fStart <= h < fStart + |filters| ==> h in e.original && filters[h - fStart] == e.original[h]
    requires GoingAt(e, targets, was, from, fStart, finds)
    modifies e.store`transactions, e.store`pending, e.store`matches, e.wallet
    ensures e.Valid() && after == e.store.matches.Keys
    ensures e.wallet.scripts == old(e.wallet.scripts) && e.wallet.scriptIndex == old(e.wallet.scriptIndex)
    ensures ok ==> GoingAt(e, targets, was, from, fStart + |filters|, finds)
  {
    hide Engine.Valid, Going, TargetsWatched, Engine.Snapshot;
    after, ok := matched, true;
    var i := 0;
    while ok && i < |filters|
      invariant 0 <= i <= |filters|
      invariant e.Valid() && after == e.store.matches.Keys
      invariant e.wallet.scripts == old(e.wallet.scripts) && e.wallet.scriptIndex == old(e.wallet.scriptIndex)
      invariant ok ==> GoingAt(e, targets, was, from, fStart + i, finds)
    {
      assert filters[fStart + i - fStart] == filters[i];
      after, ok := RescanHeight(e, fStart + i, filters[i], targets, after, reachable(fStart + i), was, from, finds);
      i := i + 1;
    }
  }

  /** What happens between two batches of a rescan: an address is queued, or
      the user derives an address to watch. */
  datatype Meanwhile = Queued(r: Rescan) | Watched(w: WatchScript)

  ghost predicate Proper(env: Env, steps: seq<Meanwhile>) {
    forall n :: 0 <= n < |steps| && steps[n].Watched? ==> steps[n].w.script == env.scriptOf(steps[n].w.address)
  }

  /** Scripts are only ever added, and a script comes with its place in the index. */
  ghost predicate Grown(scripts: seq<WatchScript>, index: map<Script, nat>, after: seq<WatchScript>,
      indexAfter: map<Script, nat>) {
    && scripts <= after && index.Keys <= indexAfter.Keys
    && (scripts == after ==> index == indexAfter)
  }

  lemma NothingGrown(scripts: seq<WatchScript>, index: map<Script, nat>)
    ensures Grown(scripts, index, scripts, index)
  {
  }

  lemma GrownOn(a: seq<WatchScript>, ai: map<Script, nat>, b: seq<WatchScript>, bi: map<Script, nat>,
      c: seq<WatchScript>, ci: map<Script, nat>)
    requires Grown(a, ai, b, bi) && Grown(b, bi, c, ci)
    ensures Grown(a, ai, c, ci) && (a == c ==> a == b)
  {
  }

  lemma GrownSame(scripts: seq<WatchScript>, index: map<Script, nat>, after: seq<WatchScript>,
      indexAfter: map<Script, nat>)
    requires Grown(scripts, index, after, indexAfter)
    ensures scripts == after ==> index == indexAfter
  {
  }

  /** Whatever was queued meanwhile is in the list. */
  ghost predicate QueuedIn(steps: seq<Meanwhile>, queued: seq<Rescan>) {
    forall n :: 0 <= n < |steps| && steps[n].Queued? ==> steps[n].r in queued
  }

  lemma QueuedInMore(steps: seq<Meanwhile>, queued: seq<Rescan>, more: seq<Rescan>)
    ensures QueuedIn(steps, queued) || QueuedIn(steps, more) ==> QueuedIn(steps, queued + more)
  {
  }

  method RunMeanwhile(e: Engine, steps: seq<Meanwhile>) returns (ghost queued: seq<Rescan>)
    requires e.Valid() && Proper(e.env, steps)
    modifies e.store`rescans, e.wallet
    ensures e.Valid()
    ensures Grown(old(e.wallet.scripts), old(e.wallet.scriptIndex), e.wallet.scripts, e.wallet.scriptIndex)
    ensures e.store.rescans == EnqueueAll(old(e.store.rescans), queued)
    ensures QueuedIn(steps, queued)
  {
    hide Engine.Valid, Enqueue;
    queued := [];
    for i := 0 to |steps|
      invariant e.Valid()
      invariant Grown(old(e.wallet.scripts), old(e.wallet.scriptIndex), e.wallet.scripts, e.wallet.scriptIndex)
      invariant e.store.rescans == EnqueueAll(old(e.store.rescans), queued)
      invariant forall n :: 0 <= n < i && steps[n].Queued? ==> steps[n].r in queued
    {
      match steps[i]
      case Queued(r) =>
        e.store.AddRescan(r);
        queued := queued + [r];
      case Watched(w) =>
        var job := e.Watch(w);
        if job.Some? {
          queued := queued + [job.value];
        }
    }
  }

  /** The filters offered for a range cover it whole. */
  ghost predicate WholeOffers(offers: seq<Offer>, n: int) {
    forall i :: 0 <= i < |offers| && offers[i].filters.Some? ==> |offers[i].filters.value| == n
  }

  /** Whatever is taken of the offers for stored heights are the original filters. */
  lemma TakenAreOriginal(e: Engine, start: nat, offer: Offer)
    requires e.Valid() && offer.filters.Some? && offer.filters.value != []
    requires e.filterStart <= start && start + |offer.filters.value| <= e.resume
    requires Genuine(e.store.filters, e.env, start, KnownBefore(e, start), offer)
    ensures forall h :: start <= h < start + |offer.filters.value| ==> h in e.original && offer.filters.value[h - start] == e.original[h]
  {
    GenuineIsOriginal(e.store.filters, e.filterStart, e.resume, e.anchor, e.original, e.env, start,
      if start == 0 then Some(ZERO_HASH) else e.store.FilterHeaderAt(start - 1), offer);
  }

  /** One batch of a rescan, other goroutines having their turn before it. */
  method RescanBatch(e: Engine, fStart: nat, fEnd: int, targets: seq<Target>, matched: set<MatchKey>, offers: seq<Offer>, reachable: int -> bool, steps: seq<Meanwhile>,
                     ghost was: Before, ghost from: nat, ghost finds: bool)
    returns (after: set<MatchKey>, ok: bool, ghost queued: seq<Rescan>)
    requires e.Valid() && TargetsWatched(e.env, targets, e.wallet.scriptIndex.Keys) && matched == e.store.matches.Keys
    requires e.filterStart <= from <= fStart <= fEnd < e.resume
    requires WholeOffers(offers, fEnd + 1 - fStart) && Proper(e.env, steps)
    requires GoingAt(e, targets, was, from, fStart, finds)
    modifies e.store`transactions, e.store`pending, e.store`matches, e.store`rescans, e.wallet
    ensures e.Valid() && TargetsWatched(e.env, targets, e.wallet.scriptIndex.Keys) && after == e.store.matches.Keys
    ensures Grown(old(e.wallet.scripts), old(e.wallet.scriptIndex), e.wallet.scripts, e.wallet.scriptIndex)
    ensures e.store.rescans == EnqueueAll(old(e.store.rescans), queued)
    ensures QueuedIn(steps, queued)
    ensures ok ==> GoingAt(e, targets, was, from, fEnd + 1, finds && e.wallet.scripts == old(e.wallet.scripts))
  {
    hide Engine.Valid, Going, EnqueueAll, Genuine, Forged, Engine.Snapshot, Proper;
    GoingUnclaimed(e.env, e.Snapshot(), e.resume, e.filterStart, e.wallet.scriptIndex.Keys, targets, e.original, was,
      from, fStart, finds);
    queued := RunMeanwhile(e, steps);
    ghost var still := finds && e.wallet.scripts == old(e.wallet.scripts);
    assert GoingAt(e, targets, was, from, fStart, still);
    var filters, dropped := RefetchFilters(e, fStart, offers);
    after, ok := matched, false;
    if filters.Some? {
      ghost var taken: nat :| taken < |offers| && offers[taken].filters == filters
        && Takes(e.store.filters, e.env, fStart, KnownBefore(e, fStart), offers, taken, dropped);
      TakenAreOriginal(e, fStart, offers[taken]);
      after, ok := RescanFilters(e, fStart, filters.value, targets, matched, reachable, was, from, still);
    }
  }

  /** Walks the synced heights from a start on, in batches. */
  method RescanRange(e: Engine, start: nat, end: int, targets: seq<Target>, offers: int -> seq<Offer>,
      reachable: int -> bool, meanwhile: nat -> seq<Meanwhile>, ghost was: Before, ghost finds: bool)
    returns (ok: bool, ghost queued: seq<Rescan>, batches: nat)
    requires e.Valid() && TargetsWatched(e.env, targets, e.wallet.scriptIndex.Keys)
    requires e.filterStart <= start <= end + 1 == e.resume
    requires forall f :: start <= f <= end ==> WholeOffers(offers(f), Min(FILTER_BATCH, end + 1 - f))
    requires forall n :: Proper(e.env, meanwhile(n))
    requires GoingAt(e, targets, was, start, start, finds)
    modifies e.store`transactions, e.store`pending, e.store`matches, e.store`rescans, e.wallet
    ensures e.Valid()
    ensures e.store.rescans == EnqueueAll(old(e.store.rescans), queued)
    ensures forall n: nat :: n < batches ==> QueuedIn(meanwhile(n), queued)
    ensures TargetsWatched(e.env, targets, e.wallet.scriptIndex.Keys)
    ensures e.wallet.scripts == old(e.wallet.scripts) ==> e.wallet.scriptIndex == old(e.wallet.scriptIndex)
    ensures ok ==> GoingAt(e, targets, was, start, e.resume, finds && e.wallet.scripts == old(e.wallet.scripts))
  {
    hide Engine.Valid, GoingAt, TargetsWatched, WholeOffers, Proper, EnqueueAll, Grown, QueuedIn;
    var matched := e.store.matches.Keys;
    var fStart := start;
    queued, batches, ok := [], 0, true;
    NothingQueued(e.store.rescans);
    NothingGrown(e.wallet.scripts, e.wallet.scriptIndex);
    while ok && fStart <= end
      invariant start <= fStart <= end + 1
      invariant e.Valid() && matched == e.store.matches.Keys && TargetsWatched(e.env, targets, e.wallet.scriptIndex.Keys)
      invariant Grown(old(e.wallet.scripts), old(e.wallet.scriptIndex), e.wallet.scripts, e.wallet.scriptIndex)
      invariant e.store.rescans == EnqueueAll(old(e.store.rescans), queued)
      invariant forall n: nat :: n < batches ==> QueuedIn(meanwhile(n), queued)
      invariant ok ==> GoingAt(e, targets, was, start, fStart, finds && e.wallet.scripts == old(e.wallet.scripts))
      decreases ok, end - fStart
    {
      var fEnd := Min(fStart + FILTER_BATCH - 1, end);
      ghost var more: seq<Rescan>;
      ghost var scripts, index := e.wallet.scripts, e.wallet.scriptIndex;
      matched, ok, more := RescanBatch(e, fStart, fEnd, targets, matched, offers(fStart), reachable, meanwhile(batches), was, start,
        finds && e.wallet.scripts == old(e.wallet.scripts));
      GrownOn(old(e.wallet.scripts), old(e.wallet.scriptIndex), scripts, index, e.wallet.scripts, e.wallet.scriptIndex);
      EnqueueMore(old(e.store.rescans), queued, more);
      forall n: nat | n <= batches
        ensures QueuedIn(meanwhile(n), queued + more)
      {
        QueuedInMore(meanwhile(n), queued, more);
      }
      queued, batches := queued + more, batches + 1;
      fStart := fEnd + 1;
    }
    GrownSame(old(e.wallet.scripts), old(e.wallet.scriptIndex), e.wallet.scripts, e.wallet.scriptIndex);
  }

  // ---------------------------------------------------------------- the queue

  /** The queue after a rescan: the idle jobs go first, others may be queued
      while it runs, and the jobs worked off go when it succeeded. */
  function QueueAfter(queue: map<Address, int>, idle: seq<Rescan>, queued: seq<Rescan>, jobs: seq<Rescan>, ok: bool): map<Address, int> {
    var running := EnqueueAll(DequeueAll(queue, idle), queued);
    if ok then DequeueAll(running, jobs) else running
  }

  /** A rescan of an address queued from a lower height while it ran stays
      queued. Otherwise success empties the queue of what was in it before, and
      failure keeps every job with work to do. */
  lemma QueueKept(queue: map<Address, int>, idle: seq<Rescan>, queued: seq<Rescan>, jobs: seq<Rescan>, ok: bool,
      a: Address)
    requires forall r :: r in idle + jobs ==> r.address in queue && r.from == queue[r.address]
    requires a in queue ==> (Rescan(a, queue[a]) in idle <==> Rescan(a, queue[a]) !in jobs)
    ensures var after := QueueAfter(queue, idle, queued, jobs, ok);
            && (forall q :: q in queued && q.address == a && (a in queue ==> q.from < queue[a]) ==> a in after && after[a] <= q.from)
            && (ok && a in queue && (forall q :: q in queued ==> q.address != a) ==> a !in after)
            && (!ok && a in queue && Rescan(a, queue[a]) in jobs ==> a in after && after[a] <= queue[a])
  {
    var first := DequeueAll(queue, idle);
    var running := EnqueueAll(first, queued);
    DequeueAllAt(queue, idle, a);
    EnqueueAllAt(first, queued, a);
    DequeueAllAt(running, jobs, a);
    assert forall r :: r in idle || r in jobs ==> r in idle + jobs;
  }

  method DropRescans(e: Engine, jobs: seq<Rescan>)
    modifies e.store`rescans
    ensures e.store.rescans == DequeueAll(old(e.store.rescans), jobs)
  {
    for n := 0 to |jobs|
      invariant e.store.rescans == DequeueAll(old(e.store.rescans), jobs[..n])
    {
      assert jobs[..n + 1][..n] == jobs[..n];
      e.store.DeleteRescan(jobs[n]);
    }
    assert jobs[..|jobs|] == jobs;
  }

  function JobsOf(targets: seq<Target>): seq<Rescan> {
    seq(|targets|, i requires 0 <= i < |targets| => targets[i].job)
  }

  // ---------------------------------------------------------------- the rescan

  /** If the original filter of the block holds the target's script, the block
      is recorded as matched for its address. */
  ghost predicate RescannedAt(env: Env, t: Tables, original: map<int, FilterData>, target: Target, h: int) {
    && 0 <= h < |t.headers| && h in original
    && (env.hit(original[h], t.headers[h].hash, target.script.script) ==> MatchKey(h, target.script.address) in t.matches)
  }

  /** This is so for every block from the start of the target to the last stored filter. */
  ghost predicate Rescanned(env: Env, t: Tables, original: map<int, FilterData>, resume: int, target: Target) {
    forall h :: target.from <= h < resume ==> RescannedAt(env, t, original, target, h)
  }

  /** The targets are the queued addresses with work to do. */
  ghost predicate TargetsOf(targets: seq<Target>, queue: map<Address, int>, scripts: seq<WatchScript>,
      firstPaid: map<Address, int>, filterStart: int, end: int) {
    && (forall t :: t in targets ==> t.job.address in queue && t.job.from == queue[t.job.address] && TargetOf(t, scripts, firstPaid, filterStart))
    && (forall a :: a in queue && HasWork(Rescan(a, queue[a]), scripts, firstPaid, filterStart, end) ==> exists t :: t in targets && t.job.address == a)
  }

  lemma AllAreRescanned(env: Env, t: Tables, original: map<int, FilterData>, resume: int, targets: seq<Target>,
      from: int)
    requires AllRecorded(env, t.headers, targets, t.matches.Keys, original, from, resume)
    requires forall t :: t in targets ==> from <= t.from
    ensures forall target :: target in targets ==> Rescanned(env, t, original, resume, target)
  {
    hide Recorded;
    forall target | target in targets
      ensures Rescanned(env, t, original, resume, target)
    {
      forall h | target.from <= h < resume
        ensures RescannedAt(env, t, original, target, h)
      {
        WhereRecorded(env, t.headers, targets, t.matches.Keys, h, original[h], target);
      }
    }
  }

  lemma WhereRecorded(env: Env, headers: seq<Header>, targets: seq<Target>, matched: set<MatchKey>, h: int,
      data: FilterData, target: Target)
    requires Recorded(env, headers, targets, matched, h, data) && target in targets && target.from <= h
    ensures 0 <= h < |headers|
    ensures env.hit(data, headers[h].hash, target.script.script) ==> MatchKey(h, target.script.address) in matched
  {
  }

  /** A rescan of an address queued from a lower height than before stays
      queued. Otherwise success empties the queue of what was in it at the
      start, and failure keeps every target. */
  ghost predicate Settled(queue: map<Address, int>, queued: seq<Rescan>, targets: seq<Target>, ok: bool,
      after: map<Address, int>) {
    && (forall q :: q in queued && (q.address in queue ==> q.from < queue[q.address]) ==> q.address in after && after[q.address] <= q.from)
    && (ok ==> forall a :: a in queue && (forall q :: q in queued ==> q.address != a) ==> a !in after)
    && (!ok ==> forall t :: t in targets ==> t.job.address in after && after[t.job.address] <= t.job.from)
  }

  /** The jobs, one for each queued address, are split into idle ones and those of the targets. */
  ghost predicate SplitJobs(queue: map<Address, int>, idle: seq<Rescan>, targets: seq<Target>) {
    && (forall r :: r in idle ==> r.address in queue && r.from == queue[r.address])
    && (forall t :: t in targets ==> t.job.address in queue && t.job.from == queue[t.job.address])
    && (forall a :: a in queue ==> (Rescan(a, queue[a]) in idle <==> !exists t :: t in targets && t.job == Rescan(a, queue[a])))
  }

  lemma QueueSettles(queue: map<Address, int>, idle: seq<Rescan>, queued: seq<Rescan>, targets: seq<Target>)
    requires SplitJobs(queue, idle, targets)
    ensures Settled(queue, queued, targets, true, DequeueAll(EnqueueAll(DequeueAll(queue, idle), queued), JobsOf(targets)))
    ensures Settled(queue, queued, targets, false, EnqueueAll(DequeueAll(queue, idle), queued))
  {
    hide *;
    AfterIs(queue, idle, queued, JobsOf(targets));
    SettlesAfter(queue, idle, queued, targets, true);
    SettlesAfter(queue, idle, queued, targets, false);
  }

  lemma SettlesAfter(queue: map<Address, int>, idle: seq<Rescan>, queued: seq<Rescan>, targets: seq<Target>, ok: bool)
    requires SplitJobs(queue, idle, targets)
    ensures Settled(queue, queued, targets, ok, QueueAfter(queue, idle, queued, JobsOf(targets), ok))
  {
    hide QueueAfter;
    var jobs := JobsOf(targets);
    forall r
      ensures r in jobs <==> exists t :: t in targets && t.job == r
    {
      if t :| t in targets && t.job == r {
        var i :| 0 <= i < |targets| && targets[i] == t;
        assert jobs[i] == r;
      }
    }
    forall a
      ensures var after := QueueAfter(queue, idle, queued, jobs, ok);
              && (forall q :: q in queued && q.address == a && (a in queue ==> q.from < queue[a]) ==> a in after && after[a] <= q.from)
              && (ok && a in queue && (forall q :: q in queued ==> q.address != a) ==> a !in after)
              && (!ok && a in queue && Rescan(a, queue[a]) in jobs ==> a in after && after[a] <= queue[a])
    {
      QueueKept(queue, idle, queued, jobs, ok, a);
    }
  }

  lemma AfterIs(queue: map<Address, int>, idle: seq<Rescan>, queued: seq<Rescan>, jobs: seq<Rescan>)
    ensures QueueAfter(queue, idle, queued, jobs, true) == DequeueAll(EnqueueAll(DequeueAll(queue, idle), queued), jobs)
    ensures QueueAfter(queue, idle, queued, jobs, false) == EnqueueAll(DequeueAll(queue, idle), queued)
  {
  }

  lemma NothingQueued(queue: map<Address, int>)
    ensures EnqueueAll(queue, []) == queue && JobsOf([]) == []
  {
  }

  lemma NothingToDo(e: Engine)
    requires e.Valid() && e.filterStart <= e.resume
    ensures Done(e, [], true, Before(e.store.transactions, e.store.matches.Keys), true)
  {
    hide *;
    var was, mine := Before(e.store.transactions, e.store.matches.Keys), e.wallet.scriptIndex.Keys;
    if e.filterStart < e.resume {
      var finds := Findable(e.env, e.chain.headers, e.filterStart, e.resume, mine, [], e.original, was);
      NoTargets(e.env, mine, e.resume);
      RowsPlaced(e);
      RescanGoes(e, [], e.resume, was, finds);
      RescanEnds(e, [], e.resume, was, true, finds);
    } else {
      NothingThere(e, was);
    }
  }

  lemma NoTargets(env: Env, mine: set<Script>, from: int)
    ensures TargetsWatched(env, [], mine) && forall t: Target :: t in [] ==> from <= t.from
  {
  }

  lemma NothingThere(e: Engine, was: Before)
    requires e.resume == e.filterStart && was.rows == e.store.transactions
    ensures Done(e, [], true, was, true)
  {
    hide MustStore, FreshAt, HasTx, Quiet, BlocksOf, Rescanned;
  }

  lemma ChainEnds(e: Engine)
    requires e.Valid() && e.filterStart < e.resume
    ensures e.resume <= |e.chain.headers|
  {
    ChainReaches(e.store.filters, e.filterStart, e.resume, e.anchor, e.original, e.env);
    assert FiltersAgree(e.store.filters, e.chain.headers);
  }

  lemma RescanGoes(e: Engine, targets: seq<Target>, from: nat, was: Before, finds: bool)
    requires e.Valid() && e.filterStart <= from <= e.resume && e.filterStart < e.resume
    requires was == Before(e.store.transactions, e.store.matches.Keys) && forall t :: t in targets ==> from <= t.from
    requires finds ==> Findable(e.env, e.chain.headers, e.filterStart, e.resume, e.wallet.scriptIndex.Keys, targets, e.original, was)
    ensures GoingAt(e, targets, was, from, from, finds)
  {
    ChainEnds(e);
    hide Engine.Valid, BlocksOf, Findable, Going;
    GoingStart(e.env, e.Snapshot(), e.resume, e.filterStart, e.wallet.scriptIndex.Keys, targets, e.original, was, from,
      finds);
  }

  lemma WatchedTargets(e: Engine, targets: seq<Target>)
    requires e.Valid() && forall t :: t in targets ==> TargetOf(t, e.wallet.scripts, e.wallet.firstPaid, e.filterStart)
    ensures TargetsWatched(e.env, targets, e.wallet.scriptIndex.Keys)
  {
    forall t | t in targets
      ensures t.script.script in e.wallet.scriptIndex && t.script.script == e.env.scriptOf(t.script.address)
    {
      var i :| 0 <= i < |e.wallet.scripts| && e.wallet.scripts[i] == t.script;
    }
  }

  /** Success means the targets are rescanned. If no script was watched
      meanwhile and no payment lies below the filter start, what is then stored
      is what had to be exactly where nothing was lost. */
  ghost predicate Done(e: Engine, targets: seq<Target>, ok: bool, was: Before, same: bool)
    reads e, e.chain`headers, e.store`filters, e.store`matches, e.store`transactions, e.wallet`scriptIndex
  {
    var mine := e.wallet.scriptIndex.Keys;
    && (ok ==> forall t :: t in targets ==> Rescanned(e.env, e.Snapshot(), e.original, e.resume, t))
    && (ok && same && Quiet(BlocksOf(e.env, e.chain.headers), e.filterStart, mine) ==>
          FindsExactly(e.env, e.chain.headers, e.store.transactions, e.resume, e.filterStart, mine, targets, e.original, was))
  }

  lemma LowestFirst(e: Engine, targets: seq<Target>)
    requires targets != [] && forall i, j :: 0 <= i < j < |targets| ==> targets[i].from <= targets[j].from
    requires forall t :: t in targets ==> TargetOf(t, e.wallet.scripts, e.wallet.firstPaid, e.filterStart)
    ensures e.filterStart <= targets[0].from && forall t :: t in targets ==> targets[0].from <= t.from
  {
    assert targets[0] in targets;
  }

  /** Works off the targets, the lowest start first. */
  method RunTargets(e: Engine, targets: seq<Target>, end: int, offers: int -> seq<Offer>, reachable: int -> bool,
      meanwhile: nat -> seq<Meanwhile>, ghost was: Before)
    returns (ok: bool, ghost queued: seq<Rescan>)
    requires e.Valid() && end + 1 == e.resume
    requires targets != [] && forall i, j :: 0 <= i < j < |targets| ==> targets[i].from <= targets[j].from
    requires forall t :: t in targets ==> TargetOf(t, e.wallet.scripts, e.wallet.firstPaid, e.filterStart) && t.from <= end
    requires forall f :: 0 <= f < e.resume ==> WholeOffers(offers(f), Min(FILTER_BATCH, e.resume - f))
    requires forall n :: Proper(e.env, meanwhile(n))
    requires was == Before(e.store.transactions, e.store.matches.Keys)
    modifies e.store`transactions, e.store`pending, e.store`matches, e.store`rescans, e.wallet
    ensures e.Valid()
    ensures e.store.rescans == EnqueueAll(old(e.store.rescans), queued)
    ensures Done(e, targets, ok, was, e.wallet.scripts == old(e.wallet.scripts))
  {
    hide *;
    var start := targets[0].from;
    LowestFirst(e, targets);
    WatchedTargets(e, targets);
    RowsPlaced(e);
    ghost var finds := Findable(e.env, e.chain.headers, e.filterStart, e.resume, e.wallet.scriptIndex.Keys, targets, e.original, was);
    RescanGoes(e, targets, start, was, finds);
    var batches;
    ok, queued, batches := RescanRange(e, start, end, targets, offers, reachable, meanwhile, was, finds);
    if ok {
      RescanEnds(e, targets, start, was, e.wallet.scripts == old(e.wallet.scripts),
        finds && e.wallet.scripts == old(e.wallet.scripts));
    } else {
      DoneNothing(e, targets, was, e.wallet.scripts == old(e.wallet.scripts));
    }
  }

  lemma RescanEnds(e: Engine, targets: seq<Target>, from: int, was: Before, same: bool, finds: bool)
    requires e.Valid() && e.filterStart <= e.resume && (forall t :: t in targets ==> from <= t.from)
    requires Placed(BlocksOf(e.env, e.chain.headers), was.rows)
    requires TargetsWatched(e.env, targets, e.wallet.scriptIndex.Keys)
    requires GoingAt(e, targets, was, from, e.resume, finds)
    requires same && Findable(e.env, e.chain.headers, e.filterStart, e.resume, e.wallet.scriptIndex.Keys, targets, e.original, was) ==>
               finds
    ensures Done(e, targets, true, was, same)
  {
    e.ValidChain();
    RowsPlaced(e);
    LateWatched(e.env, targets, e.wallet.scriptIndex.Keys);
    hide Engine.Valid, AllRecorded, Rescanned, FindsExactly, Quiet, NothingLost, BlocksOf, ValidBlocks, Placed, Walked;
    GoingEnd(e.env, e.Snapshot(), e.resume, e.filterStart, e.wallet.scriptIndex.Keys, targets, e.original, was, from,
      finds);
    AllAreRescanned(e.env, e.Snapshot(), e.original, e.resume, targets, from);
  }

  lemma LateWatched(env: Env, targets: seq<Target>, mine: set<Script>)
    requires TargetsWatched(env, targets, mine)
    ensures Late(targets) <= mine
  {
  }

  lemma DoneNothing(e: Engine, targets: seq<Target>, was: Before, same: bool)
    ensures Done(e, targets, false, was, same)
  {
  }

  /** The targets and the idle jobs of the queue. */
  method PlanRescan(e: Engine, end: int) returns (targets: seq<Target>, idle: seq<Rescan>)
    ensures SplitJobs(e.store.rescans, idle, targets)
    ensures TargetsOf(targets, e.store.rescans, e.wallet.scripts, e.wallet.firstPaid, e.filterStart, end)
    ensures forall i, j :: 0 <= i < j < |targets| ==> targets[i].from <= targets[j].from
    ensures forall t :: t in targets ==> TargetOf(t, e.wallet.scripts, e.wallet.firstPaid, e.filterStart) && t.from <= end
  {
    var queue := e.store.rescans;
    var jobs := e.store.Rescans();
    targets, idle := RescanTargets(jobs, e.wallet.scripts, e.wallet.firstPaid, e.filterStart, end);
  }

  /** Of every queued address that is watched and was paid, each block from the
      highest of its queued height, its lowest stored payment and the filter start
      up to the last stored filter is recorded as matched if its original filter
      holds the script of the address. */
  ghost predicate QueueScanned(e: Engine, queue: map<Address, int>, scripts: seq<WatchScript>,
      firstPaid: map<Address, int>)
    reads e, e.chain`headers, e.store`matches
  {
    forall a, h ::
      a in queue && WatchedAddress(scripts, a) && a in firstPaid && queue[a] <= h && firstPaid[a] <= h && e.filterStart <= h < e.resume ==>
        MatchedAt(e.env, e.chain.headers, e.original, e.store.matches.Keys, a, h)
  }

  /** Every watched script is the one of its address. */
  ghost predicate OwnScripts(env: Env, scripts: seq<WatchScript>) {
    forall i :: 0 <= i < |scripts| ==> scripts[i].script == env.scriptOf(scripts[i].address)
  }

  lemma ScriptsAreOwn(e: Engine)
    requires e.Valid()
    ensures OwnScripts(e.env, e.wallet.scripts)
  {
  }

  /** Every queued address with blocks to scan is still queued, from no higher. */
  ghost predicate QueueKeeps(queue: map<Address, int>, scripts: seq<WatchScript>, firstPaid: map<Address, int>,
      filterStart: int, end: int, after: map<Address, int>) {
    forall a :: a in queue && !NothingToScan(Rescan(a, queue[a]), scripts, firstPaid, filterStart, end) ==> a in after && after[a] <= queue[a]
  }

  lemma FailureKeeps(queue: map<Address, int>, queued: seq<Rescan>, targets: seq<Target>, scripts: seq<WatchScript>,
      firstPaid: map<Address, int>, filterStart: int, end: int, after: map<Address, int>)
    requires filterStart >= 0 && TargetsOf(targets, queue, scripts, firstPaid, filterStart, end)
    requires Settled(queue, queued, targets, false, after)
    ensures QueueKeeps(queue, scripts, firstPaid, filterStart, end, after)
  {
    hide NothingToScan, HasWork, TargetOf, StartOf;
    var any := Target(Rescan("", 0), 0, WatchScript("", "", []));
    forall a | a in queue && !NothingToScan(Rescan(a, queue[a]), scripts, firstPaid, filterStart, end)
      ensures a in after && after[a] <= queue[a]
    {
      StartsAndIdle(Rescan(a, queue[a]), any, scripts, firstPaid, filterStart, end);
      var t :| t in targets && t.job.address == a;
    }
  }

  predicate WatchedAddress(scripts: seq<WatchScript>, a: Address) {
    exists i :: 0 <= i < |scripts| && scripts[i].address == a
  }

  ghost predicate MatchedAt(env: Env, headers: seq<Header>, original: map<int, FilterData>, matched: set<MatchKey>,
      a: Address, h: int) {
    && 0 <= h < |headers| && h in original
    && (env.hit(original[h], headers[h].hash, env.scriptOf(a)) ==> MatchKey(h, a) in matched)
  }

  lemma TargetsScanned(e: Engine, targets: seq<Target>, queue: map<Address, int>, scripts: seq<WatchScript>,
      firstPaid: map<Address, int>, was: Before, same: bool)
    requires TargetsOf(targets, queue, scripts, firstPaid, e.filterStart, e.resume - 1)
    requires OwnScripts(e.env, scripts)
    requires Done(e, targets, true, was, same)
    ensures QueueScanned(e, queue, scripts, firstPaid)
  {
    hide FindsExactly, MatchedAt, Quiet, StartsHighest, NothingToScan, TargetOf;
    forall a, h | a in queue && WatchedAddress(scripts, a) && a in firstPaid && queue[a] <= h && firstPaid[a] <= h && e.filterStart <= h < e.resume
      ensures MatchedAt(e.env, e.chain.headers, e.original, e.store.matches.Keys, a, h)
    {
      AddressScanned(e, targets, queue, scripts, firstPaid, a, h);
    }
  }

  lemma AddressScanned(e: Engine, targets: seq<Target>, queue: map<Address, int>, scripts: seq<WatchScript>,
      firstPaid: map<Address, int>, a: Address, h: int)
    requires TargetsOf(targets, queue, scripts, firstPaid, e.filterStart, e.resume - 1)
    requires OwnScripts(e.env, scripts)
    requires forall t :: t in targets ==> Rescanned(e.env, e.Snapshot(), e.original, e.resume, t)
    requires a in queue && WatchedAddress(scripts, a) && a in firstPaid
    requires queue[a] <= h && firstPaid[a] <= h && e.filterStart <= h < e.resume
    ensures MatchedAt(e.env, e.chain.headers, e.original, e.store.matches.Keys, a, h)
  {
    hide StartOf;
    var any := Target(Rescan("", 0), 0, WatchScript("", "", []));
    StartsAndIdle(Rescan(a, queue[a]), any, scripts, firstPaid, e.filterStart, e.resume - 1);
    var t :| t in targets && t.job.address == a;
    StartsAndIdle(t.job, t, scripts, firstPaid, e.filterStart, e.resume - 1);
    assert t.from <= h;
    assert RescannedAt(e.env, e.Snapshot(), e.original, t, h);
    var i :| 0 <= i < |scripts| && scripts[i] == t.script;
  }

  /** One rescan: drops the queued jobs with nothing to scan, works off the
      others and, when that succeeded, takes them from the queue. */
  method RunRescan(e: Engine, offers: int -> seq<Offer>, reachable: int -> bool, meanwhile: nat -> seq<Meanwhile>)
    returns (ok: bool, ghost targets: seq<Target>, ghost queued: seq<Rescan>)
    requires e.Valid()
    requires forall f :: 0 <= f < e.resume ==> WholeOffers(offers(f), Min(FILTER_BATCH, e.resume - f))
    requires forall n :: Proper(e.env, meanwhile(n))
    modifies e.store`transactions, e.store`pending, e.store`matches, e.store`rescans, e.wallet
    ensures e.Valid()
    ensures TargetsOf(targets, old(e.store.rescans), old(e.wallet.scripts), old(e.wallet.firstPaid), e.filterStart, e.resume - 1)
    ensures Done(e, targets, ok, old(Before(e.store.transactions, e.store.matches.Keys)), e.wallet.scripts == old(e.wallet.scripts))
    ensures Settled(old(e.store.rescans), queued, targets, ok, e.store.rescans)
    ensures ok ==> QueueScanned(e, old(e.store.rescans), old(e.wallet.scripts), old(e.wallet.firstPaid))
    ensures !ok ==> QueueKeeps(old(e.store.rescans), old(e.wallet.scripts), old(e.wallet.firstPaid), e.filterStart, e.resume - 1, e.store.rescans)
  {
    hide *;
    var resume := e.store.FilterResumeHeight(e.filterStart);
    e.ResumeIs(resume);
    ScriptsAreOwn(e);
    var list, idle := PlanRescan(e, resume - 1);
    targets := list;
    DropRescans(e, idle);
    if |list| == 0 {
      ok, queued := true, [];
      NothingToDo(e);
      NothingQueued(e.store.rescans);
    } else {
      ok, queued := RunTargets(e, list, resume - 1, offers, reachable, meanwhile, Before(e.store.transactions, e.store.matches.Keys));
    }
    if ok {
      DropRescans(e, JobsOf(list));
    }
    QueueSettles(old(e.store.rescans), idle, queued, list);
    if ok {
      TargetsScanned(e, list, old(e.store.rescans), old(e.wallet.scripts), old(e.wallet.firstPaid),
        old(Before(e.store.transactions, e.store.matches.Keys)), e.wallet.scripts == old(e.wallet.scripts));
    } else {
      FailureKeeps(old(e.store.rescans), queued, list, old(e.wallet.scripts), old(e.wallet.firstPaid), e.filterStart, resume - 1,
        e.store.rescans);
    }
  }
}