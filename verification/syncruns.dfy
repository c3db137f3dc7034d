/**
 Whole runs of the sync: header batches with forks and failures, accepted
 filters and rescanned blocks, in any order (internal/sync).
 */
module SyncRuns {
  import opened Basics
  import opened Transactions
  import opened Ledger
  import opened Wallets
  import opened MedianTimes
  import opened Chains
  import opened Scans
  import opened Stores
  import opened SyncState
  import opened Steps
  import opened RescanSteps

  /** The chain in memory with the rows derived from it, and the stored headers. */
  datatype Sync = Sync(tables: Tables, stored: map<int, StoredHeader>)

  /** A header batch, a filter accepted and stored, or a block rescanned; the
      watched scripts and known outpoints are those of the moment. */
  datatype Step =
    | BatchStep(batch: seq<WireHeader>, clock: int -> int, saveFails: bool)
    | FilterStep(scripts: seq<WatchScript>, index: map<Script, nat>, known: set<OutPoint>, height: int, served: Served, filterHeader: Hash)
    | RescanStep(targets: seq<Target>, mine: set<Script>, known: set<OutPoint>, height: int, data: FilterData)

  datatype World = World(params: Params, hashOf: WireHeader -> Hash, env: Env)

  ghost predicate Allowed(w: World, step: Step) {
    match step
    case BatchStep(batch, _, _) => batch != []
    case FilterStep(scripts, index, _, _, _, _) =>
      IndexOk(scripts, index) && forall i :: 0 <= i < |scripts| ==> scripts[i].script == w.env.scriptOf(scripts[i].address)
    case RescanStep(targets, mine, _, _, _) => TargetsWatched(w.env, targets, mine)
  }

  function StoredRows(headers: seq<Header>, from: nat): seq<StoredHeader>
    requires from <= |headers|
  {
    seq(|headers| - from, i requires 0 <= i < |headers| - from => StoredOf(headers[from + i]))
  }

  /** The stored headers after a batch; a failed write keeps only those up to the fork. */
  function StoredAfter(stored: map<int, StoredHeader>, headers: seq<Header>, fork: int, saveFails: bool): map<int, StoredHeader>
    requires -1 <= fork < |headers|
  {
    if saveFails then UpTo(stored, fork) else PutHeaders(UpTo(stored, fork), StoredRows(headers, fork + 1))
  }

  function Next(w: World, s: Sync, step: Step): Sync {
    match step
    case BatchStep(batch, clock, saveFails) =>
      if batch == [] then s
      else
        var fork := HeightOfHash(s.tables.headers, batch[0].prevBlock);
        var after := ExtendTables(w.params, w.hashOf, s.tables, batch, clock, saveFails).0;
        if fork < 0 then s
        else
          ExtendGrows(w.params, w.hashOf, s.tables.headers[..fork + 1], batch, clock);
          Sync(after, StoredAfter(s.stored, after.headers, fork, saveFails))
    case FilterStep(scripts, index, known, height, served, filterHeader) =>
      if !Acceptable(w.env, s.tables.headers, scripts, height, served) then s
      else
        var t := AcceptTables(s.tables, w.env, scripts, known, index.Keys, height, served);
        s.(tables := t.(filters := t.filters[height := FilterRow(height, t.headers[height].hash, filterHeader)]))
    case RescanStep(targets, mine, known, height, data) =>
      if !(0 <= height < |s.tables.headers|) then s
      else s.(tables := RescanTables(s.tables, w.env, known, mine, height, targets, data))
  }

  lemma {:induction false} ExtendGrows(params: Params, hashOf: WireHeader -> Hash, headers: seq<Header>,
      batch: seq<WireHeader>, clock: int -> int)
    ensures headers <= Extend(params, hashOf, headers, batch, clock).0
    decreases |batch|
  {
    hide CheckHeader;
    if batch != [] && CheckHeader(params, hashOf, headers, batch[0], clock(|headers|)).None? {
      ExtendGrows(params, hashOf, headers + [NewHeader(hashOf, batch[0], |headers|)], batch[1..], clock);
    }
  }

  lemma {:induction false} ExtendLinked(params: Params, hashOf: WireHeader -> Hash, headers: seq<Header>,
      batch: seq<WireHeader>, clock: int -> int)
    requires Linked(params, hashOf, headers)
    ensures Linked(params, hashOf, Extend(params, hashOf, headers, batch, clock).0)
    decreases |batch|
  {
    hide CheckHeader, Linked;
    if batch != [] && CheckHeader(params, hashOf, headers, batch[0], clock(|headers|)).None? {
      ApplyStaysLinked(params, hashOf, headers, AddOp(batch[0], clock(|headers|)));
      ExtendLinked(params, hashOf, headers + [NewHeader(hashOf, batch[0], |headers|)], batch[1..], clock);
    }
  }

  /** Memory and tables tell of one valid chain: the stored headers are the
      chain, and every filter, match and transaction row lies on it with the hash
      of the header at its height. */
  ghost predicate Consistent(w: World, s: Sync) {
    && Linked(w.params, w.hashOf, s.tables.headers)
    && HeadersMatch(s.stored, s.tables.headers)
    && TablesAgree(s.tables, w.env)
  }

  ghost predicate Assumed(w: World) {
    Sound(w.params, w.hashOf) && HonestBlocks(w.env, w.params, w.hashOf)
  }

  lemma BatchConsistent(w: World, s: Sync, step: Step)
    requires Assumed(w) && Consistent(w, s) && step.BatchStep? && step.batch != []
    ensures Consistent(w, Next(w, s, step))
  {
    hide TablesAgree, HeadersMatch, Linked, Extend, PutHeaders, HonestBlocks, Sound, ValidBlocks, UpTo, RewindTables;
    var headers := s.tables.headers;
    var fork := HeightOfHash(headers, step.batch[0].prevBlock);
    if fork >= 0 {
      var base := headers[..fork + 1];
      var all := if step.saveFails then base else Extend(w.params, w.hashOf, base, step.batch, step.clock).0;
      ValidFrom(w, headers);
      TablesRewound(s.tables, w.env, fork);
      HeadersRewound(s.stored, headers, fork);
      LinkedPrefix(w.params, w.hashOf, headers, fork + 1);
      ExtendGrows(w.params, w.hashOf, base, step.batch, step.clock);
      ExtendLinked(w.params, w.hashOf, base, step.batch, step.clock);
      RewoundHeaders(s.tables, fork);
      TablesExtended(RewindTables(s.tables, fork), w.env, all);
      if !step.saveFails {
        assert base + all[|base|..] == all;
        PutNewHeaders(UpTo(s.stored, fork), w.params, w.hashOf, base, all[|base|..], StoredRows(all, fork + 1));
      }
    }
  }

  lemma RewoundHeaders(t: Tables, fork: int)
    requires -1 <= fork < |t.headers|
    ensures RewindTables(t, fork).headers == t.headers[..fork + 1]
  {
  }

  lemma ValidFrom(w: World, headers: seq<Header>)
    requires Assumed(w) && Linked(w.params, w.hashOf, headers)
    ensures ValidBlocks(BlocksOf(w.env, headers))
  {
  }

  lemma FilterConsistent(w: World, s: Sync, step: Step)
    requires Assumed(w) && Consistent(w, s) && step.FilterStep? && Allowed(w, step)
    ensures Consistent(w, Next(w, s, step))
  {
    hide HeadersMatch, Linked, HonestBlocks, Sound, ValidBlocks, FiltersAgree, MatchesAgree, TransactionsAgree, MatchesProcessed, Process, Matched, PutMatches;
    ValidFrom(w, s.tables.headers);
    if Acceptable(w.env, s.tables.headers, step.scripts, step.height, step.served) {
      TablesAccepted(s.tables, w.env, step.scripts, step.known, step.index, step.height, step.served);
      var t := AcceptTables(s.tables, w.env, step.scripts, step.known, step.index.Keys, step.height, step.served);
      FilterAgrees(t.filters, t.headers, FilterRow(step.height, t.headers[step.height].hash, step.filterHeader));
    }
  }

  lemma RescanConsistent(w: World, s: Sync, step: Step)
    requires Assumed(w) && Consistent(w, s) && step.RescanStep? && Allowed(w, step)
    ensures Consistent(w, Next(w, s, step))
  {
    hide HeadersMatch, Linked, HonestBlocks, Sound, ValidBlocks, TablesAgree, Process, Fresh, Active, PutMatches, TargetsWatched;
    ValidFrom(w, s.tables.headers);
    if 0 <= step.height < |s.tables.headers| {
      var hash := s.tables.headers[step.height].hash;
      var found := Fresh(w.env, Active(step.targets, step.height), s.tables.matches.Keys, step.data, hash, step.height);
      FreshWatched(w.env, step.targets, step.mine, s.tables.matches.Keys, step.data, hash, step.height);
      TablesMatched(s.tables, w.env, step.known, step.mine, step.height, found);
    }
  }

  function Run(w: World, s: Sync, steps: seq<Step>): Sync {
    if steps == [] then s else Next(w, Run(w, s, steps[..|steps| - 1]), steps[|steps| - 1])
  }

  /** After any run of header batches, with forks, headers failing part-way and
      failing writes, of accepted filters and of rescanned blocks, the stored
      headers are the chain in memory and no row is above it or off it. */
  lemma {:induction false} RunsStayConsistent(w: World, s: Sync, steps: seq<Step>)
    requires Assumed(w) && Consistent(w, s)
    requires forall i :: 0 <= i < |steps| ==> Allowed(w, steps[i])
    ensures Consistent(w, Run(w, s, steps))
  {
    hide Next, Consistent, Assumed, Allowed;
    if steps != [] {
      var n := |steps| - 1;
      RunsStayConsistent(w, s, steps[..n]);
      NextConsistent(w, Run(w, s, steps[..n]), steps[n]);
    }
  }

  lemma NextConsistent(w: World, s: Sync, step: Step)
    requires Assumed(w) && Consistent(w, s) && Allowed(w, step)
    ensures Consistent(w, Next(w, s, step))
  {
    hide Next, Consistent, Assumed;
    match step
    case BatchStep(_, _, _) => BatchConsistent(w, s, step);
    case FilterStep(_, _, _, _, _, _) => FilterConsistent(w, s, step);
    case RescanStep(_, _, _, _, _) => RescanConsistent(w, s, step);
  }

  /** Every header is one of the base, with all those below it, or passed the
      checks against those below it at some time. */
  ghost predicate AllChecked(w: World, base: seq<Header>, headers: seq<Header>) {
    forall k: nat :: k < |headers| ==> headers[..k + 1] <= base || CheckedAt(w, headers, k)
  }

  ghost predicate CheckedAt(w: World, headers: seq<Header>, k: nat)
    requires k < |headers|
  {
    exists now: int :: CheckHeader(w.params, w.hashOf, headers[..k], ToWire(headers[k]), now).None?
  }

  lemma PassedChecked(w: World, headers: seq<Header>, k: nat, sent: WireHeader, now: int)
    requires Passed(w.params, w.hashOf, headers, k, sent, now)
    ensures CheckedAt(w, headers, k)
  {
    hide CheckHeader;
    assert ToWire(headers[k]) == sent;
  }

  lemma CheckedPrefix(w: World, base: seq<Header>, headers: seq<Header>, n: nat)
    requires AllChecked(w, base, headers) && n <= |headers|
    ensures AllChecked(w, base, headers[..n])
  {
    hide CheckHeader;
    forall k: nat | k < n
      ensures headers[..n][..k + 1] <= base || CheckedAt(w, headers[..n], k)
    {
      assert headers[..k + 1] <= base || CheckedAt(w, headers, k);
      assert headers[..n][..k + 1] == headers[..k + 1] && headers[..n][..k] == headers[..k] && headers[..n][k] == headers[k];
    }
  }

  lemma TakenAreChecked(w: World, base: seq<Header>, before: seq<Header>, batch: seq<WireHeader>, clock: int -> int,
      after: seq<Header>, outcome: Outcome)
    requires AllChecked(w, base, before) && TakenUpTo(w.params, w.hashOf, before, batch, clock, after, outcome)
    ensures AllChecked(w, base, after)
  {
    hide CheckHeader, Passed, CheckedAt;
    forall k: nat | k < |after|
      ensures after[..k + 1] <= base || CheckedAt(w, after, k)
    {
      if k < |before| {
        SameBelow(w, before, after, k);
      } else {
        PassedChecked(w, after, k, batch[k - |before|], clock(k));
      }
    }
  }

  lemma SameBelow(w: World, before: seq<Header>, after: seq<Header>, k: nat)
    requires before <= after && k < |before|
    ensures before[..k + 1] == after[..k + 1] && (CheckedAt(w, before, k) <==> CheckedAt(w, after, k))
  {
    hide CheckHeader;
    assert before[..k + 1] == after[..k + 1] && before[..k] == after[..k];
  }

  lemma NextChecked(w: World, s: Sync, step: Step, base: seq<Header>)
    requires AllChecked(w, base, s.tables.headers)
    ensures AllChecked(w, base, Next(w, s, step).tables.headers)
  {
    hide AllChecked, TakenUpTo, Extend, Process, PutMatches, Fresh, Active, Matched, StoredAfter;
    if step.BatchStep? && step.batch != [] {
      var headers := s.tables.headers;
      var fork := HeightOfHash(headers, step.batch[0].prevBlock);
      if fork >= 0 {
        CheckedPrefix(w, base, headers, fork + 1);
        ExtendTakes(w.params, w.hashOf, headers[..fork + 1], step.batch, step.clock);
        var (after, outcome) := Extend(w.params, w.hashOf, headers[..fork + 1], step.batch, step.clock);
        TakenAreChecked(w, base, headers[..fork + 1], step.batch, step.clock, after, outcome);
      }
    }
  }

  /** After any run, whatever was reorganised on the way, every header that is not
      of the chain the run started from passed every check against those below it. */
  lemma {:induction false} RunsCheckHeaders(w: World, s: Sync, steps: seq<Step>)
    ensures AllChecked(w, s.tables.headers, Run(w, s, steps).tables.headers)
  {
    hide Next, AllChecked;
    if steps == [] {
      StartChecked(w, s.tables.headers);
    } else {
      var n := |steps| - 1;
      RunsCheckHeaders(w, s, steps[..n]);
      NextChecked(w, Run(w, s, steps[..n]), steps[n], s.tables.headers);
    }
  }

  lemma StartChecked(w: World, headers: seq<Header>)
    ensures AllChecked(w, headers, headers)
  {
  }

  /** So each such header is later than the median of the up to eleven before it. */
  lemma RunsKeepTimes(w: World, s: Sync, steps: seq<Step>, k: nat)
    requires 0 < k < |Run(w, s, steps).tables.headers|
    requires !(Run(w, s, steps).tables.headers[..k + 1] <= s.tables.headers)
    ensures var headers := Run(w, s, steps).tables.headers; headers[k].timestamp > Median(Times(headers[..k]))
  {
    hide Run, CheckedAt;
    RunsCheckHeaders(w, s, steps);
    CheckedIsLater(w, Run(w, s, steps).tables.headers, k);
  }

  lemma CheckedIsLater(w: World, headers: seq<Header>, k: nat)
    requires 0 < k < |headers|
    ensures CheckedAt(w, headers, k) ==> headers[k].timestamp > Median(Times(headers[..k]))
  {
    hide Median, Times, CheckDifficulty, CheckPoW;
    if CheckedAt(w, headers, k) {
      var now: int :| CheckHeader(w.params, w.hashOf, headers[..k], ToWire(headers[k]), now).None?;
    }
  }

  /** The stored headers determine the chain: loading them can give no other. */
  lemma StoredDetermineChain(w: World, stored: map<int, StoredHeader>, a: seq<Header>, b: seq<Header>)
    requires Linked(w.params, w.hashOf, a) && HeadersMatch(stored, a)
    requires Linked(w.params, w.hashOf, b) && HeadersMatch(stored, b)
    ensures a == b
  {
    assert |a| in stored ==> |a| < |a|;
    assert |b| in stored ==> |b| < |b|;
    forall i | 0 <= i < |a|
      ensures i < |b| && a[i] == b[i]
    {
      assert stored[i] == StoredOf(a[i]) == StoredOf(b[i]);
    }
  }
}
