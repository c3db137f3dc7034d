/**
 Two payment histories for which a rescan does not find everything: a block that
 spends a coin was recorded as matched before the coin was known, and a payment
 lies below the lowest stored one, where the rescan starts.
 */
module RescanExample {
  import opened Basics
  import opened Transactions
  import opened Ledger
  import opened Wallets
  import opened Chains
  import opened Scans
  import opened Stores
  import opened SyncState
  import opened Steps
  import opened RescanSteps
  import opened Rescans

  const EARLY: Script := [1]
  const LATE: Script := [2]
  const OTHER: Script := [3]

  /** Pays both wallet scripts; found while only the first was watched. */
  const BOTH := Tx(1, [OutPoint(9, 0)], [TxOut(1, EARLY), TxOut(2, LATE)])

  /** Pays the second script alone; its block was scanned before that was watched. */
  const MISSED := Tx(2, [OutPoint(8, 0)], [TxOut(5, LATE)])

  /** Spends it; its block was scanned after. */
  const SPENDER := Tx(3, [OutPoint(2, 0)], [TxOut(5, OTHER)])

  const FIRST := WatchScript("early", "", EARLY)
  const WATCHED := WatchScript("late", "", LATE)

  lemma DifferentScripts()
    ensures EARLY != LATE && EARLY != OTHER && LATE != OTHER && "early" != "late"
  {
    assert EARLY[0] != LATE[0] && EARLY[0] != OTHER[0] && LATE[0] != OTHER[0];
    assert |"early"| != |"late"|;
  }

  function KnownIn(t: Tables, mine: set<Script>): set<OutPoint> {
    CoinMap(TxsOf(t.transactions) + [], mine).Keys
  }

  /** The tables after the scan of one block: its filter is accepted, and its
      block can be downloaded. */
  function ScannedBlock(t: Tables, env: Env, scripts: seq<WatchScript>, mine: set<Script>, h: nat,
      data: FilterData): Tables
    requires h < |t.headers|
  {
    AcceptTables(t, env, scripts, KnownIn(t, mine), mine, h, Served(data, false, true))
  }

  function EmptyTables(headers: seq<Header>): Tables {
    Tables(headers, map[], map[], [])
  }

  // -------------------------------------------------------- blocks of one transaction

  lemma OneTx(rows: seq<TxRow>, tx: Tx, known: set<OutPoint>, mine: set<Script>, height: nat, hash: Hash)
    ensures Process(rows, [tx], known, mine, height, hash) == if Relevant(tx, known, mine) then Save(rows, TxRow(tx, height, hash)) else rows
  {
    assert [tx][..0] == [];
  }

  lemma OneMatch(table: map<MatchKey, MatchRow>, w: WatchScript, height: nat, hash: Hash)
    requires MatchKey(height, w.address) !in table
    ensures PutMatches(table, [w], height, hash) == table[MatchKey(height, w.address) := MatchRow(height, hash, w.address, w.script)]
  {
    assert [w][..0] == [];
  }

  lemma MatchedOf(env: Env, data: FilterData, hash: Hash)
    ensures Matched(env, [FIRST], data, hash) == if env.hit(data, hash, EARLY) then [FIRST] else []
    ensures !env.hit(data, hash, EARLY) && env.hit(data, hash, LATE) ==> Matched(env, [FIRST, WATCHED], data, hash) == [WATCHED]
  {
    var scripts := [FIRST, WATCHED];
    assert scripts[..1] == [FIRST] && [FIRST][..0] == [];
  }

  lemma PaysBoth(known: set<OutPoint>)
    ensures Relevant(BOTH, known, {EARLY}) && Relevant(BOTH, known, {EARLY, LATE}) && Relevant(MISSED, known, {EARLY, LATE})
  {
    assert BOTH.outs[0].script in {EARLY} && BOTH.outs[0].script in {EARLY, LATE} && MISSED.outs[0].script in {EARLY, LATE};
  }

  lemma SaveRows(h: nat, hash: Hash, other: Hash)
    ensures Save([], TxRow(BOTH, h, hash)) == [TxRow(BOTH, h, hash)]
    ensures Save([TxRow(BOTH, h, hash)], TxRow(BOTH, h, hash)) == [TxRow(BOTH, h, hash)]
    ensures Save([TxRow(BOTH, h, hash)], TxRow(MISSED, 1, other)) == [TxRow(BOTH, h, hash), TxRow(MISSED, 1, other)]
  {
    var rows := [TxRow(BOTH, h, hash)];
    assert rows[..0] == [];
    assert Without(rows, 1) == [] && Without(rows, 2) == rows;
  }

  /** The block with both payments, scanned with the first script watched. */
  lemma BothScanned(t: Tables, env: Env, h: nat, data: FilterData)
    requires h < |t.headers| && env.blockOf(t.headers[h].hash) == [BOTH] && env.hit(data, t.headers[h].hash, EARLY)
    requires t.transactions == [] && t.matches == map[]
    ensures var after := ScannedBlock(t, env, [FIRST], {EARLY}, h, data);
            && after.headers == t.headers && after.transactions == [TxRow(BOTH, h, t.headers[h].hash)]
            && after.matches.Keys == {MatchKey(h, "early")}
  {
    hide Process, PutMatches, Matched, KnownIn, Relevant, Save;
    var hash := t.headers[h].hash;
    MatchedOf(env, data, hash);
    OneTx(t.transactions, BOTH, KnownIn(t, {EARLY}), {EARLY}, h, hash);
    PaysBoth(KnownIn(t, {EARLY}));
    SaveRows(h, hash, hash);
    OneMatch(t.matches, FIRST, h, hash);
  }

  /** What a rescan for the late address finds in a block. */
  lemma FoundAt(env: Env, from: nat, data: FilterData, hash: Hash, matched: set<MatchKey>, h: nat)
    ensures Fresh(env, Active([Target(Rescan("late", from), from, WATCHED)], h), matched, data, hash, h) ==
            if from <= h && env.hit(data, hash, LATE) && MatchKey(h, "late") !in matched then [WATCHED] else []
  {
    var targets := [Target(Rescan("late", from), from, WATCHED)];
    assert targets[..0] == [];
    assert Active(targets, h) == if from <= h then [WATCHED] else [];
    assert [WATCHED][..0] == [];
  }

  /** Once the late script is watched, its rescan starts at the stored payment
      of the one row, queued as it is from there. */
  lemma LateStart(rows: seq<TxRow>, h: nat, hash: Hash, index: map<Script, nat>, firstPaid: map<Address, int>)
    requires rows == [TxRow(BOTH, h, hash)] && IndexOk([FIRST, WATCHED], index)
    requires FirstPaidOk(rows, [FIRST, WATCHED], index, firstPaid)
    ensures "late" in firstPaid && firstPaid["late"] == h
    ensures StartOf(Rescan("late", firstPaid["late"]), firstPaid, 0) == h
  {
    var scripts := [FIRST, WATCHED];
    DifferentScripts();
    assert scripts[1].script == LATE && scripts[0].script == EARLY;
    assert LATE in index && index[LATE] == 1;
    assert BOTH.outs[1].script == LATE;
    assert PaysAddress(rows[0].tx, scripts, index, "late");
  }

  // ------------------------------------------ a block matched before the coin was known

  /** The three blocks, and filters that hold just the scripts they should. */
  ghost predicate Setting(env: Env, headers: seq<Header>, data: FilterData) {
    && |headers| == 3
    && env.blockOf(headers[0].hash) == [BOTH] && env.blockOf(headers[1].hash) == [MISSED] && env.blockOf(headers[2].hash) == [SPENDER]
    && (forall s :: env.hit(data, headers[0].hash, s) <==> s == EARLY || s == LATE)
    && (forall s :: env.hit(data, headers[1].hash, s) <==> s == LATE)
    && (forall s :: env.hit(data, headers[2].hash, s) <==> s == LATE)
  }

  /** The scan: two blocks with the first script watched, one with both. */
  function Scanned(env: Env, headers: seq<Header>, data: FilterData): Tables
    requires |headers| == 3
  {
    var one := ScannedBlock(EmptyTables(headers), env, [FIRST], {EARLY}, 0, data);
    var two := ScannedBlock(one, env, [FIRST], {EARLY}, 1, data);
    ScannedBlock(two, env, [FIRST, WATCHED], {EARLY, LATE}, 2, data)
  }

  /** The tables after the rescan of the late address, which starts at the one
      stored payment (LateStart), walked the blocks below n. */
  function RescannedTo(env: Env, headers: seq<Header>, data: FilterData, n: nat): (t: Tables)
    requires |headers| == 3 && n <= 3
    ensures |t.headers| == 3
  {
    if n == 0 then Scanned(env, headers, data)
    else
      var t := RescannedTo(env, headers, data, n - 1);
      RescanTables(t, env, KnownIn(t, {EARLY, LATE}), {EARLY, LATE}, n - 1, [Target(Rescan("late", 0), 0, WATCHED)], data)
  }

  lemma SpenderUnknown(t: Tables, mine: set<Script>)
    requires mine == {EARLY, LATE} && TxsOf(t.transactions) == [BOTH]
    ensures !Relevant(SPENDER, KnownIn(t, mine), mine)
  {
    DifferentScripts();
    assert [BOTH] + [] == [BOTH] && [BOTH][..0] == [];
    assert DistinctIds([BOTH]);
    CoinMapMember([BOTH], mine, OutPoint(2, 0));
  }

  /** The scan after both are watched records the block of the spending as matched, without storing it. */
  lemma AfterScan(env: Env, headers: seq<Header>, data: FilterData)
    requires Setting(env, headers, data)
    ensures var t := Scanned(env, headers, data);
            && t.headers == headers && t.transactions == [TxRow(BOTH, 0, headers[0].hash)]
            && t.matches.Keys == {MatchKey(0, "early"), MatchKey(2, "late")}
  {
    var mine := {EARLY, LATE};
    DifferentScripts();
    var one := ScannedBlock(EmptyTables(headers), env, [FIRST], {EARLY}, 0, data);
    BothScanned(EmptyTables(headers), env, 0, data);
    MatchedOf(env, data, headers[1].hash);
    assert ScannedBlock(one, env, [FIRST], {EARLY}, 1, data) == one;
    SecondScanned(env, headers, data, one);
  }

  lemma SecondScanned(env: Env, headers: seq<Header>, data: FilterData, t: Tables)
    requires Setting(env, headers, data)
    requires t.headers == headers && t.transactions == [TxRow(BOTH, 0, headers[0].hash)] && t.matches.Keys == {MatchKey(0, "early")}
    ensures var after := ScannedBlock(t, env, [FIRST, WATCHED], {EARLY, LATE}, 2, data);
            && after.headers == headers && after.transactions == t.transactions
            && after.matches.Keys == {MatchKey(0, "early"), MatchKey(2, "late")}
  {
    var mine := {EARLY, LATE};
    DifferentScripts();
    assert TxsOf(t.transactions) == [BOTH];
    hide Process, PutMatches, Matched, KnownIn, Relevant;
    SpenderUnknown(t, mine);
    MatchedOf(env, data, headers[2].hash);
    OneTx(t.transactions, SPENDER, KnownIn(t, mine), mine, 2, headers[2].hash);
    OneMatch(t.matches, WATCHED, 2, headers[2].hash);
  }

  lemma BlocksAre(env: Env, headers: seq<Header>, data: FilterData)
    requires Setting(env, headers, data)
    ensures |headers| == 3
    ensures env.blockOf(headers[0].hash) == [BOTH] && env.blockOf(headers[1].hash) == [MISSED] && BlocksOf(env, headers)[2] == [SPENDER]
    ensures forall h :: 0 <= h < 3 ==> env.hit(data, headers[h].hash, LATE)
  {
  }

  lemma AfterTwo(env: Env, headers: seq<Header>, data: FilterData)
    requires Setting(env, headers, data)
    ensures var t := RescannedTo(env, headers, data, 2);
            && t.headers == headers && MatchKey(2, "late") in t.matches
            && t.transactions == [TxRow(BOTH, 0, headers[0].hash), TxRow(MISSED, 1, headers[1].hash)]
  {
    hide Process, PutMatches, KnownIn, Relevant, Save, Scanned, Active, Fresh, Setting;
    var mine := {EARLY, LATE};
    BlocksAre(env, headers, data);
    DifferentScripts();
    AfterScan(env, headers, data);
    var s := Scanned(env, headers, data);
    assert s == RescannedTo(env, headers, data, 0);
    FoundAt(env, 0, data, headers[0].hash, s.matches.Keys, 0);
    OneMatch(s.matches, WATCHED, 0, headers[0].hash);
    OneTx(s.transactions, BOTH, KnownIn(s, mine), mine, 0, headers[0].hash);
    SaveRows(0, headers[0].hash, headers[1].hash);
    PaysBoth(KnownIn(s, mine));
    var t := RescannedTo(env, headers, data, 1);
    assert t.transactions == s.transactions;
    FoundAt(env, 0, data, headers[1].hash, t.matches.Keys, 1);
    OneMatch(t.matches, WATCHED, 1, headers[1].hash);
    OneTx(t.transactions, MISSED, KnownIn(t, mine), mine, 1, headers[1].hash);
    PaysBoth(KnownIn(t, mine));
  }

  /** The rescan finds the payment but skips the block that spends it: the coin
      stays in the wallet although the chain has spent it. */
  lemma SkippedSpendExample(env: Env, headers: seq<Header>, data: FilterData)
    requires Setting(env, headers, data)
    ensures var t := RescannedTo(env, headers, data, 3);
            && OutPoint(2, 0) in Unspent(TxsOf(t.transactions), {EARLY, LATE})
            && OutPoint(2, 0) in SPENDER.ins && SPENDER in BlocksOf(env, headers)[2] && !HasTx(t.transactions, SPENDER)
  {
    hide RescannedTo, Setting, BlocksOf, Unspent;
    AfterTwo(env, headers, data);
    BlocksAre(env, headers, data);
    LastSkipped(env, headers, data);
    var t := RescannedTo(env, headers, data, 2);
    assert TxsOf(t.transactions) == [BOTH, MISSED];
    StillUnspent();
  }

  lemma LastSkipped(env: Env, headers: seq<Header>, data: FilterData)
    requires Setting(env, headers, data)
    requires var t := RescannedTo(env, headers, data, 2); t.headers == headers && MatchKey(2, "late") in t.matches
    ensures RescannedTo(env, headers, data, 3) == RescannedTo(env, headers, data, 2)
  {
    hide Active, Fresh, Process, Scanned, Setting;
    FoundAt(env, 0, data, headers[2].hash, RescannedTo(env, headers, data, 2).matches.Keys, 2);
  }

  lemma StillUnspent()
    ensures OutPoint(2, 0) in Unspent([BOTH, MISSED], {EARLY, LATE})
  {
    var txs := [BOTH, MISSED];
    assert txs[..1] == [BOTH] && [BOTH][..0] == [];
    assert AllIns(txs) == [OutPoint(9, 0), OutPoint(8, 0)] by {
      assert AllIns([BOTH]) == [OutPoint(9, 0)];
    }
    assert DistinctIds(txs);
    assert txs[1].outs[0].script in {EARLY, LATE};
    CoinMapMember(txs, {EARLY, LATE}, OutPoint(2, 0));
  }

  // ------------------------------------------ a payment before the first stored one

  /** The two blocks the other way round, and filters that hold just the
      scripts they should. */
  ghost predicate EarlierSetting(env: Env, headers: seq<Header>, data: FilterData) {
    && |headers| == 2
    && env.blockOf(headers[0].hash) == [MISSED] && env.blockOf(headers[1].hash) == [BOTH]
    && (forall s :: env.hit(data, headers[0].hash, s) <==> s == LATE)
    && (forall s :: env.hit(data, headers[1].hash, s) <==> s == EARLY || s == LATE)
  }

  /** The scan of both blocks with the first script watched. */
  function EarlierScanned(env: Env, headers: seq<Header>, data: FilterData): Tables
    requires |headers| == 2
  {
    ScannedBlock(ScannedBlock(EmptyTables(headers), env, [FIRST], {EARLY}, 0, data), env, [FIRST], {EARLY}, 1, data)
  }

  lemma AfterEarlierScan(env: Env, headers: seq<Header>, data: FilterData)
    requires EarlierSetting(env, headers, data)
    ensures var t := EarlierScanned(env, headers, data);
            && t.headers == headers && t.transactions == [TxRow(BOTH, 1, headers[1].hash)]
            && t.matches.Keys == {MatchKey(1, "early")}
  {
    DifferentScripts();
    MatchedOf(env, data, headers[0].hash);
    assert ScannedBlock(EmptyTables(headers), env, [FIRST], {EARLY}, 0, data) == EmptyTables(headers);
    BothScanned(EmptyTables(headers), env, 1, data);
  }

  /** The lowest stored payment to the late address is in the second block, so
      its rescan starts there and never sees the payment of the first: the
      transaction is to be stored and is not, and it is what is lost. */
  lemma EarlierPaymentExample(env: Env, headers: seq<Header>, data: FilterData, index: map<Script, nat>,
      firstPaid: map<Address, int>, known: set<OutPoint>)
    requires EarlierSetting(env, headers, data) && IndexOk([FIRST, WATCHED], index)
    requires FirstPaidOk(EarlierScanned(env, headers, data).transactions, [FIRST, WATCHED], index, firstPaid)
    ensures "late" in firstPaid && StartOf(Rescan("late", firstPaid["late"]), firstPaid, 0) == 1
    ensures var t, targets := EarlierScanned(env, headers, data), [Target(Rescan("late", 1), 1, WATCHED)];
            var after := RescanTables(t, env, known, {EARLY, LATE}, 1, targets, data);
            && MISSED in BlocksOf(env, headers)[0] && MustStore(BlocksOf(env, headers), 0, MISSED, {LATE})
            && !HasTx(after.transactions, MISSED)
            && !NothingLost(env, headers, 0, 2, {LATE}, targets, map[0 := data, 1 := data], Before(t.transactions, t.matches.Keys))
  {
    hide Process, PutMatches, Active, Fresh, Save, Relevant, FirstPaidOk, EarlierScanned;
    var t, targets := EarlierScanned(env, headers, data), [Target(Rescan("late", 1), 1, WATCHED)];
    AfterEarlierScan(env, headers, data);
    LateStart(t.transactions, 1, headers[1].hash, index, firstPaid);
    EarlierLost(env, headers, data, t, targets);
    DifferentScripts();
    FoundAt(env, 1, data, headers[1].hash, t.matches.Keys, 1);
    OneTx(t.transactions, BOTH, known, {EARLY, LATE}, 1, headers[1].hash);
    PaysBoth(known);
    SaveRows(1, headers[1].hash, headers[1].hash);
  }

  lemma EarlierLost(env: Env, headers: seq<Header>, data: FilterData, t: Tables, targets: seq<Target>)
    requires EarlierSetting(env, headers, data) && targets == [Target(Rescan("late", 1), 1, WATCHED)]
    requires t.transactions == [TxRow(BOTH, 1, headers[1].hash)]
    ensures MISSED in BlocksOf(env, headers)[0] && MustStore(BlocksOf(env, headers), 0, MISSED, {LATE})
    ensures !NothingLost(env, headers, 0, 2, {LATE}, targets, map[0 := data, 1 := data], Before(t.transactions, t.matches.Keys))
  {
    assert MISSED.outs[0].script in {LATE};
    assert !HasTx(t.transactions, MISSED);
    assert !FreshAt(env, headers, targets, t.matches.Keys, map[0 := data, 1 := data], 0);
  }
}
