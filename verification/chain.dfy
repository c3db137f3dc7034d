/**
 The validated block header chain with its hash index
 (internal/spv/chain.go).
 */
module Chains {
  import opened Basics
  import opened Compact
  import opened Sorting
  import opened MedianTimes
  import opened Locators

  // ------------------------------------------------------------- vocabulary

  /** A block header as it travels; its hash commits to every field. */
  datatype WireHeader = WireHeader(
    version: int, prevBlock: Hash, merkleRoot: Hash, timestamp: int, bits: uint32, nonce: uint32)

  datatype Header = Header(
    hash: Hash, height: int, version: int, prevBlock: Hash, merkleRoot: Hash,
    timestamp: int, bits: uint32, nonce: uint32)

  datatype Net = MainNet | TestNet3 | TestNet4 | SigNet | RegTest | SimNet

  datatype Params = Params(
    net: Net, genesis: WireHeader, powLimit: nat, powLimitBits: uint32,
    reduceMinDifficulty: bool, minDiffReductionTime: int, enforceBIP94: bool)

  datatype Rejection =
    | ZeroBits
    | BadBits(error: BitsError)
    | NonPositiveTarget
    | HashAboveTarget
    | NotGenesis
    | WrongParent
    | NotAfterMedian
    | TooFarInFuture
    | NoMinDifficultyGap
    | TimeWarp
    | WrongRetargetBits

  /** Bounds on block times, in seconds, and the blocks of a difficulty period. */
  const MAX_FUTURE_DRIFT := 2 * 60 * 60
  const MAX_TIME_WARP := 10 * 60
  const RETARGET_INTERVAL := 2016

  /** What a double SHA-256 is relied on for: no collisions, and no preimage of the null hash. */
  ghost predicate IdealHash(hashOf: WireHeader -> Hash) {
    && (forall a, b :: hashOf(a) == hashOf(b) ==> a == b)
    && (forall a :: hashOf(a) != ZERO_HASH)
  }

  function NewHeader(hashOf: WireHeader -> Hash, w: WireHeader, height: int): Header {
    Header(hashOf(w), height, w.version, w.prevBlock, w.merkleRoot, w.timestamp, w.bits, w.nonce)
  }

  function ToWire(h: Header): WireHeader {
    WireHeader(h.version, h.prevBlock, h.merkleRoot, h.timestamp, h.bits, h.nonce)
  }

  function Times(headers: seq<Header>): (times: seq<int>)
    ensures |times| == |headers|
  {
    seq(|headers|, i requires 0 <= i < |headers| => headers[i].timestamp)
  }

  lemma CollectTime(headers: seq<Header>, i: nat, times: seq<int>)
    requires i < |headers| && multiset(times) == multiset(Times(headers)[i + 1..])
    ensures multiset(times + [headers[i].timestamp]) == multiset(Times(headers)[i..])
  {
    assert Times(headers)[i..] == [headers[i].timestamp] + Times(headers)[i + 1..];
  }

  // ------------------------------------------------------ linkage and index

  /** A list of headers is a chain: numbered from 0, hashed from its own fields,
      starting at the genesis block, each one naming the one before. */
  ghost predicate Linked(params: Params, hashOf: WireHeader -> Hash, headers: seq<Header>) {
    && (forall i :: 0 <= i < |headers| ==> headers[i] == NewHeader(hashOf, ToWire(headers[i]), i))
    && (headers != [] ==> headers[0].hash == hashOf(params.genesis))
    && (forall i, j :: 0 <= i < |headers| && j == i + 1 && j < |headers| ==> headers[j].prevBlock == headers[i].hash)
  }

  /** The assumptions on the hash function and the network's first block. */
  ghost predicate Sound(params: Params, hashOf: WireHeader -> Hash) {
    IdealHash(hashOf) && params.genesis.prevBlock == ZERO_HASH
  }

  /** The index is the exact inverse of the list. */
  ghost predicate IndexExact(headers: seq<Header>, byHash: map<Hash, int>) {
    && (forall i :: 0 <= i < |headers| ==> headers[i].hash in byHash && byHash[headers[i].hash] == i)
    && (forall h :: h in byHash ==> 0 <= byHash[h] < |headers| && headers[byHash[h]].hash == h)
  }

  /** No hash appears twice on a chain: equal hashes would belong to equal
      headers, so their parents' hashes would be equal too, down to the genesis
      block, whose parent is no block at all. */
  lemma {:induction false} HashesDistinct(params: Params, hashOf: WireHeader -> Hash, headers: seq<Header>, i: nat,
      j: nat)
    requires Sound(params, hashOf) && Linked(params, hashOf, headers)
    requires i < j < |headers|
    ensures headers[i].hash != headers[j].hash
  {
    var parent := headers[j - 1];
    assert headers[j].prevBlock == parent.hash == hashOf(ToWire(parent));
    assert ToWire(headers[0]) == params.genesis;
    if headers[i].hash == headers[j].hash {
      assert ToWire(headers[i]) == ToWire(headers[j]);
      if i > 0 {
        HashesDistinct(params, hashOf, headers, i - 1, j - 1);
      }
    }
  }

  lemma LinkedExtends(params: Params, hashOf: WireHeader -> Hash, headers: seq<Header>, w: WireHeader)
    requires Linked(params, hashOf, headers)
    requires if headers == [] then hashOf(w) == hashOf(params.genesis) else w.prevBlock == headers[|headers| - 1].hash
    ensures Linked(params, hashOf, headers + [NewHeader(hashOf, w, |headers|)])
  {
  }

  lemma LinkedPrefix(params: Params, hashOf: WireHeader -> Hash, headers: seq<Header>, k: nat)
    requires Linked(params, hashOf, headers) && k <= |headers|
    ensures Linked(params, hashOf, headers[..k])
  {
  }

  // ------------------------------------------------------------- difficulty

  /** Where the walk back through a period ends: at a header that is no
      minimum-difficulty exception, or at the first of the period. */
  function LastRealHeight(headers: seq<Header>, height: nat, limitBits: uint32): (k: nat)
    requires height < |headers|
    ensures k <= height && k / RETARGET_INTERVAL == height / RETARGET_INTERVAL
    ensures k % RETARGET_INTERVAL == 0 || headers[k].bits != limitBits
    ensures forall i :: k < i <= height ==> headers[i].bits == limitBits
  {
    if height > 0 && height % RETARGET_INTERVAL != 0 && headers[height].bits == limitBits
    then LastRealHeight(headers, height - 1, limitBits)
    else height
  }

  /** Whether the bits of a header at the end of the chain obey the network's rules. */
  function CheckDifficulty(params: Params, headers: seq<Header>, w: WireHeader): Option<Rejection>
    requires headers != []
  {
    var height := |headers|;
    var parent := headers[height - 1];
    var retarget := height % RETARGET_INTERVAL == 0;
    if params.net.RegTest? || params.net.SimNet? then None
    else if params.reduceMinDifficulty && !retarget && w.bits == params.powLimitBits then
      if w.timestamp - parent.timestamp > params.minDiffReductionTime then None
      else if headers[LastRealHeight(headers, height - 1, params.powLimitBits)].bits == params.powLimitBits then None
      else Some(NoMinDifficultyGap)
    else if !retarget then None
    else
      var first := headers[height - RETARGET_INTERVAL];
      if params.enforceBIP94 && w.timestamp < parent.timestamp - MAX_TIME_WARP then Some(TimeWarp)
      else
        match NextBits(first.timestamp, parent.timestamp, RetargetBase(params, headers), params.powLimit)
        case Err(e) => Some(BadBits(e))
        case Ok(want) => if w.bits == want then None else Some(WrongRetargetBits)
  }

  /** The bits a retarget scales: the last block's, or the first block's under BIP 94. */
  function RetargetBase(params: Params, headers: seq<Header>): uint32
    requires |headers| >= RETARGET_INTERVAL
  {
    if params.enforceBIP94 then headers[|headers| - RETARGET_INTERVAL].bits else headers[|headers| - 1].bits
  }

  function CheckPoW(w: WireHeader, hash: Hash): Option<Rejection> {
    if w.bits == 0 then Some(ZeroBits)
    else
      match Target(w.bits)
      case Err(e) => Some(BadBits(e))
      case Ok(target) =>
        if target <= 0 then Some(NonPositiveTarget)
        else if hash > target then Some(HashAboveTarget)
        else None
  }

  /** Why a header cannot follow the chain at the given time, if it cannot. */
  function CheckHeader(params: Params, hashOf: WireHeader -> Hash, headers: seq<Header>, w: WireHeader, now: int): Option<Rejection> {
    var pow := CheckPoW(w, hashOf(w));
    if pow.Some? then pow
    else if headers == [] then
      if hashOf(w) == hashOf(params.genesis) then None else Some(NotGenesis)
    else if w.prevBlock != headers[|headers| - 1].hash then Some(WrongParent)
    else if w.timestamp <= Median(Times(headers)) then Some(NotAfterMedian)
    else if w.timestamp > now + MAX_FUTURE_DRIFT then Some(TooFarInFuture)
    else CheckDifficulty(params, headers, w)
  }

  /** The walk back finds the minimum difficulty exactly when every header of the
      period up to there has it. */
  lemma RealIsMinimum(headers: seq<Header>, height: nat, limitBits: uint32)
    requires height < |headers|
    ensures headers[LastRealHeight(headers, height, limitBits)].bits == limitBits <==>
            forall i :: height - height % 2016 <= i <= height ==> headers[i].bits == limitBits
  {
    var k := LastRealHeight(headers, height, limitBits);
    SamePeriod(k, height);
    assert k >= height - height % 2016;
    if headers[k].bits == limitBits {
      assert k % RETARGET_INTERVAL == 0;
    }
  }

  lemma SamePeriod(k: nat, height: nat)
    requires k <= height && k / RETARGET_INTERVAL == height / RETARGET_INTERVAL
    ensures height - height % 2016 <= k && (k % RETARGET_INTERVAL == 0 ==> k == height - height % 2016)
  {
  }

  /** The proof of work: the bits name a target above zero that the hash meets. */
  predicate WorkDone(w: WireHeader, hash: Hash) {
    w.bits != 0 && Target(w.bits).Ok? && 0 < Target(w.bits).value && hash <= Target(w.bits).value
  }

  /** The difficulty rules for a header at the end of the chain. At a retarget its
      bits follow from the period before, and under BIP 94 it is dated at most ten
      minutes before its parent. Elsewhere only the minimum difficulty of test
      networks is restricted, to headers late enough and to periods of nothing else. */
  ghost predicate DifficultyHolds(params: Params, headers: seq<Header>, w: WireHeader)
    requires headers != []
  {
    var n := |headers|;
    var parent := headers[n - 1];
    if params.net.RegTest? || params.net.SimNet? then true
    else if n % 2016 == 0 then
      && (params.enforceBIP94 ==> w.timestamp >= parent.timestamp - 600)
      && NextBits(headers[n - 2016].timestamp, parent.timestamp, if params.enforceBIP94 then headers[n - 2016].bits else parent.bits, params.powLimit) == Ok(w.bits)
    else
      params.reduceMinDifficulty && w.bits == params.powLimitBits ==>
        || w.timestamp > parent.timestamp + params.minDiffReductionTime
        || forall i :: n - 1 - (n - 1) % 2016 <= i < n ==> headers[i].bits == params.powLimitBits
  }

  /** A header is accepted exactly when its work is done and it is the genesis
      block, or names the tip, is later than the median of the last times and at
      most two hours ahead of the clock, and the difficulty rules hold. */
  lemma AcceptedIff(params: Params, hashOf: WireHeader -> Hash, headers: seq<Header>, w: WireHeader, now: int)
    ensures CheckHeader(params, hashOf, headers, w, now).None? <==>
              && WorkDone(w, hashOf(w))
              && (headers == [] ==> hashOf(w) == hashOf(params.genesis))
              && (headers != [] ==> w.prevBlock == headers[|headers| - 1].hash && Median(Times(headers)) < w.timestamp <= now + 7200
                                    && DifficultyHolds(params, headers, w))
  {
    hide Median, Times, Target, NextBits;
    if headers != [] {
      DifficultyIff(params, headers, w);
      hide CheckDifficulty, DifficultyHolds;
    }
  }

  /** Why a header is rejected: it fails the check of the reason and passes those before. */
  lemma RejectedFor(params: Params, hashOf: WireHeader -> Hash, headers: seq<Header>, w: WireHeader, now: int)
    requires CheckHeader(params, hashOf, headers, w, now).Some?
    ensures var reason, work := CheckHeader(params, hashOf, headers, w, now).value, WorkDone(w, hashOf(w));
            var placed := work && headers != [] && w.prevBlock == headers[|headers| - 1].hash;
            && (reason.ZeroBits? ==> w.bits == 0)
            && (reason.NonPositiveTarget? ==> w.bits != 0 && Target(w.bits) == Ok(0))
            && (reason.HashAboveTarget? ==> w.bits != 0 && Target(w.bits).Ok? && hashOf(w) > Target(w.bits).value > 0)
            && (reason.NotGenesis? ==> work && headers == [] && hashOf(w) != hashOf(params.genesis))
            && (reason.WrongParent? ==> work && headers != [] && w.prevBlock != headers[|headers| - 1].hash)
            && (reason.NotAfterMedian? ==> placed && w.timestamp <= Median(Times(headers)))
            && (reason.TooFarInFuture? ==> placed && w.timestamp > Max(Median(Times(headers)), now + 7200))
            && (reason.TimeWarp? ==> placed && params.enforceBIP94 && |headers| % 2016 == 0 && w.timestamp < headers[|headers| - 1].timestamp - 600)
            && (reason.WrongRetargetBits? ==> placed && |headers| % 2016 == 0)
            && (reason.NoMinDifficultyGap? ==> placed && |headers| % 2016 != 0 && w.bits == params.powLimitBits
                                               && w.timestamp <= headers[|headers| - 1].timestamp + params.minDiffReductionTime)
  {
    hide Median, Times, Target, NextBits, LastRealHeight;
  }

  lemma DifficultyIff(params: Params, headers: seq<Header>, w: WireHeader)
    requires headers != []
    ensures CheckDifficulty(params, headers, w).None? <==> DifficultyHolds(params, headers, w)
  {
    hide LastRealHeight, NextBits;
    var n := |headers|;
    RealIsMinimum(headers, n - 1, params.powLimitBits);
  }

  lemma AcceptedAtRetarget(params: Params, hashOf: WireHeader -> Hash, headers: seq<Header>, w: WireHeader, now: int)
    requires |headers| >= RETARGET_INTERVAL && |headers| % RETARGET_INTERVAL == 0
    requires !params.net.RegTest? && !params.net.SimNet?
    ensures CheckHeader(params, hashOf, headers, w, now).None? ==>
              var n := |headers|;
              && NextBits(headers[n - RETARGET_INTERVAL].timestamp, headers[n - 1].timestamp, RetargetBase(params, headers), params.powLimit) == Ok(w.bits)
              && Target(w.bits).Ok? && hashOf(w) <= Target(w.bits).value
  {
    hide Median, Target, NextBits, LastRealHeight;
  }

  /** A header accepted at a retarget stays within a factor of four of the
      target it scales and below the limit, whatever the block times claim. */
  lemma RetargetStaysBounded(params: Params, hashOf: WireHeader -> Hash, headers: seq<Header>, w: WireHeader, now: int)
    requires |headers| >= RETARGET_INTERVAL && |headers| % RETARGET_INTERVAL == 0
    requires !params.net.RegTest? && !params.net.SimNet? && IsTarget(params.powLimit)
    ensures CheckHeader(params, hashOf, headers, w, now).None? ==>
              var prior := Target(RetargetBase(params, headers));
              var next := Target(w.bits);
              && prior.Ok? && next.Ok?
              && hashOf(w) <= next.value <= Min(params.powLimit, 4 * prior.value)
              && next.value * 0x8000 >= Min(params.powLimit, prior.value / 4) * 0x7fff
  {
    hide CheckHeader, Target, IsTarget, NextBits, RetargetBase;
    var n := |headers|;
    AcceptedAtRetarget(params, hashOf, headers, w, now);
    if CheckHeader(params, hashOf, headers, w, now).None? {
      DecodedBase(headers[n - RETARGET_INTERVAL].timestamp, headers[n - 1].timestamp, RetargetBase(params, headers),
        params.powLimit);
      RetargetBounds(headers[n - RETARGET_INTERVAL].timestamp, headers[n - 1].timestamp,
        RetargetBase(params, headers), params.powLimit);
    }
  }

  lemma DecodedBase(first: int, last: int, oldBits: uint32, powLimit: nat)
    ensures NextBits(first, last, oldBits, powLimit).Ok? ==> Target(oldBits).Ok?
  {
  }

  // ------------------------------------------------------------- whole runs

  datatype Op = AddOp(header: WireHeader, now: int) | AppendOp(header: WireHeader) | TruncateOp(height: int)

  /** What one call makes of the chain. A rejected header changes nothing; cutting
      at a height off the chain is a slice error and no transition. */
  function Apply(params: Params, hashOf: WireHeader -> Hash, headers: seq<Header>, op: Op): seq<Header> {
    match op
    case AddOp(w, now) =>
      if CheckHeader(params, hashOf, headers, w, now).None? then headers + [NewHeader(hashOf, w, |headers|)] else headers
    case AppendOp(w) =>
      if LinksOn(params, hashOf, headers, w) then headers + [NewHeader(hashOf, w, |headers|)] else headers
    case TruncateOp(height) =>
      if -1 <= height < |headers| then headers[..height + 1] else headers
  }

  predicate LinksOn(params: Params, hashOf: WireHeader -> Hash, headers: seq<Header>, w: WireHeader) {
    if headers == [] then hashOf(w) == hashOf(params.genesis) else w.prevBlock == headers[|headers| - 1].hash
  }

  function Run(params: Params, hashOf: WireHeader -> Hash, ops: seq<Op>): seq<Header> {
    if ops == [] then []
    else Apply(params, hashOf, Run(params, hashOf, ops[..|ops| - 1]), ops[|ops| - 1])
  }

  /** After any run of calls the list is a chain and no hash appears twice on it. */
  lemma {:induction false} RunsStayLinked(params: Params, hashOf: WireHeader -> Hash, ops: seq<Op>)
    requires Sound(params, hashOf)
    ensures Linked(params, hashOf, Run(params, hashOf, ops))
    ensures forall i, j :: 0 <= i < j < |Run(params, hashOf, ops)| ==>
              Run(params, hashOf, ops)[i].hash != Run(params, hashOf, ops)[j].hash
  {
    var headers := Run(params, hashOf, ops);
    if ops != [] {
      RunsStayLinked(params, hashOf, ops[..|ops| - 1]);
      ApplyStaysLinked(params, hashOf, Run(params, hashOf, ops[..|ops| - 1]), ops[|ops| - 1]);
    }
    forall i, j | 0 <= i < j < |headers|
      ensures headers[i].hash != headers[j].hash
    {
      HashesDistinct(params, hashOf, headers, i, j);
    }
  }

  lemma ApplyStaysLinked(params: Params, hashOf: WireHeader -> Hash, headers: seq<Header>, op: Op)
    requires Linked(params, hashOf, headers)
    ensures Linked(params, hashOf, Apply(params, hashOf, headers, op))
  {
    match op
    case AddOp(w, now) =>
      if CheckHeader(params, hashOf, headers, w, now).None? {
        LinkedExtends(params, hashOf, headers, w);
      }
    case AppendOp(w) =>
      if LinksOn(params, hashOf, headers, w) {
        LinkedExtends(params, hashOf, headers, w);
      }
    case TruncateOp(height) =>
      if -1 <= height < |headers| {
        LinkedPrefix(params, hashOf, headers, height + 1);
      }
  }

  /** Along the chain that any run of Add and Truncate leaves, median time past
      never goes back. */
  lemma {:induction false} RunsKeepMedianRule(params: Params, hashOf: WireHeader -> Hash, ops: seq<Op>)
    requires forall op :: op in ops ==> !op.AppendOp?
    ensures MedianRule(Times(Run(params, hashOf, ops)))
  {
    if ops != [] {
      hide Median, CheckDifficulty, CheckPoW, MedianRule, Times;
      var before := Run(params, hashOf, ops[..|ops| - 1]);
      var op := ops[|ops| - 1];
      assert op in ops;
      RunsKeepMedianRule(params, hashOf, ops[..|ops| - 1]);
      match op
      case AddOp(w, now) =>
        if CheckHeader(params, hashOf, before, w, now).None? {
          ExtendMedianRule(hashOf, before, w);
        }
      case TruncateOp(height) =>
        if -1 <= height < |before| {
          TimesPrefix(before, height + 1);
          MedianRulePrefix(Times(before), height + 1);
        }
      case AppendOp(_) =>
    }
  }

  lemma ExtendMedianRule(hashOf: WireHeader -> Hash, headers: seq<Header>, w: WireHeader)
    requires MedianRule(Times(headers)) && (headers == [] || w.timestamp > Median(Times(headers)))
    ensures MedianRule(Times(headers + [NewHeader(hashOf, w, |headers|)]))
  {
    hide Median, MedianRule;
    MedianRuleExtends(Times(headers), w.timestamp);
    assert Times(headers + [NewHeader(hashOf, w, |headers|)]) == Times(headers) + [w.timestamp];
  }

  lemma TimesPrefix(headers: seq<Header>, k: nat)
    requires k <= |headers|
    ensures Times(headers[..k]) == Times(headers)[..k]
  {
  }

  lemma MedianNeverGoesBack(params: Params, hashOf: WireHeader -> Hash, ops: seq<Op>, i: nat, j: nat)
    requires forall op :: op in ops ==> !op.AppendOp?
    requires 1 <= i <= j <= |Run(params, hashOf, ops)|
    ensures Median(Times(Run(params, hashOf, ops)[..i])) <= Median(Times(Run(params, hashOf, ops)[..j]))
  {
    var headers := Run(params, hashOf, ops);
    RunsKeepMedianRule(params, hashOf, ops);
    MedianMonotone(Times(headers), i, j);
    TimesPrefix(headers, i);
    TimesPrefix(headers, j);
  }

  // ---------------------------------------------------------------- the class

  class Chain {
    const params: Params
    const hashOf: WireHeader -> Hash
    var headers: seq<Header>
    var byHash: map<Hash, int>

    ghost predicate Valid()
      reads this
    {
      && Sound(params, hashOf)
      && Linked(params, hashOf, headers)
      && IndexExact(headers, byHash)
    }

    constructor (params: Params, hashOf: WireHeader -> Hash)
      requires Sound(params, hashOf)
      ensures Valid() && headers == []
      ensures this.params == params && this.hashOf == hashOf
    {
      this.params := params;
      this.hashOf := hashOf;
      headers := [];
      byHash := map[];
    }

    /** Where the tip is; -1 while there are no headers. */
    function Height(): int
      reads this
    {
      |headers| - 1
    }

    function HeaderAt(height: int): Option<Header>
      reads this
    {
      if height < 0 || height >= |headers| then None else Some(headers[height])
    }

    /** The height of a hash on the chain, or -1. */
    method HeightOf(hash: Hash) returns (height: int)
      requires Valid()
      ensures -1 <= height < |headers|
      ensures height >= 0 ==> headers[height].hash == hash
      ensures height == -1 <==> forall i :: 0 <= i < |headers| ==> headers[i].hash != hash
    {
      if hash in byHash {
        return byHash[hash];
      }
      return -1;
    }

    /** One more header on the tip, unless a check rejects it. */
    method Add(w: WireHeader, now: int) returns (rejected: Option<Rejection>)
      requires Valid()
      modifies this
      ensures Valid()
      ensures rejected == CheckHeader(params, hashOf, old(headers), w, now)
      ensures headers == if rejected.None? then old(headers) + [NewHeader(hashOf, w, |old(headers)|)] else old(headers)
      ensures headers == Apply(params, hashOf, old(headers), AddOp(w, now))
    {
      var height := |headers|;
      var hash := hashOf(w);
      rejected := CheckProofOfWork(w, hash);
      if rejected.Some? {
        return;
      }
      if height == 0 {
        var genesis := hashOf(params.genesis);
        if hash != genesis {
          return Some(NotGenesis);
        }
      } else {
        var tip := headers[height - 1];
        if w.prevBlock != tip.hash {
          return Some(WrongParent);
        }
        var median := MedianTime();
        if w.timestamp <= median {
          return Some(NotAfterMedian);
        }
        if w.timestamp > now + MAX_FUTURE_DRIFT {
          return Some(TooFarInFuture);
        }
        rejected := CheckBits(w);
        if rejected.Some? {
          return;
        }
      }
      Append(w);
      return None;
    }

    /** Appends a stored header, checking no more than that it links. */
    method AppendTrusted(w: WireHeader) returns (ok: bool)
      requires Valid()
      modifies this
      ensures Valid()
      ensures ok == LinksOn(params, hashOf, old(headers), w)
      ensures headers == if ok then old(headers) + [NewHeader(hashOf, w, |old(headers)|)] else old(headers)
      ensures headers == Apply(params, hashOf, old(headers), AppendOp(w))
    {
      var height := |headers|;
      var hash := hashOf(w);
      if height == 0 {
        if hash != hashOf(params.genesis) {
          return false;
        }
      } else if w.prevBlock != headers[height - 1].hash {
        return false;
      }
      Append(w);
      return true;
    }

    /** The common end of Add and AppendTrusted: the new header is indexed, and
        its hash is not on the chain yet. */
    method Append(w: WireHeader)
      requires Valid() && LinksOn(params, hashOf, headers, w)
      modifies this
      ensures Valid()
      ensures headers == old(headers) + [NewHeader(hashOf, w, |old(headers)|)]
    {
      var height := |headers|;
      var hash := hashOf(w);
      headers := headers + [Header(hash, height, w.version, w.prevBlock, w.merkleRoot, w.timestamp, w.bits, w.nonce)];
      byHash := byHash[hash := height];
      LinkedExtends(params, hashOf, old(headers), w);
      forall i | 0 <= i < height
        ensures headers[i].hash != hash
      {
        HashesDistinct(params, hashOf, headers, i, height);
      }
    }

    /** Removes every header above the height, and exactly their hashes from the index. */
    method Truncate(height: int)
      requires Valid() && -1 <= height < |headers|
      modifies this
      ensures Valid()
      ensures headers == old(headers)[..height + 1]
      ensures forall h :: h in byHash <==> h in old(byHash) && old(byHash)[h] <= height
    {
      hide Sound, Linked;
      ghost var index := byHash;
      var i := height + 1;
      while i < |headers|
        invariant height + 1 <= i <= |headers|
        invariant headers == old(headers)
        invariant forall h :: h in byHash <==> h in index && !(height < index[h] < i)
        invariant forall h :: h in byHash ==> byHash[h] == index[h]
      {
        byHash := byHash - {headers[i].hash};
        i := i + 1;
      }
      headers := headers[..height + 1];
      LinkedPrefix(params, hashOf, old(headers), height + 1);
    }

    /** The locator of the chain: one hash for each of its locator heights. The
        heights and strides are int32 values and never overflow. */
    method Locator() returns (locator: seq<Hash>)
      requires Valid() && |headers| <= 0x8000_0000
      ensures headers == [] ==> locator == [ZERO_HASH]
      ensures headers != [] ==> IsLocatorLength(|headers| - 1, |locator|)
      ensures headers != [] ==> forall k :: 0 <= k < |locator| ==>
                Depth(k) < |headers| && locator[k] == headers[|headers| - 1 - Depth(k)].hash
    {
      hide Sound, Linked, IndexExact, Pow2, Depth, Stride;
      DepthStart();
      if |headers| == 0 {
        return [ZERO_HASH];
      }
      locator := [];
      var tip := |headers| - 1;
      var step: int32 := 1;
      var height: int32 := tip as int32;
      while height >= 0
        invariant height as int == tip - Depth(|locator|)
        invariant height as int < |headers|
        invariant step as int == if |locator| == 0 then 1 else Stride(|locator| - 1)
        invariant |locator| > 0 ==> Depth(|locator| - 1) <= tip
        invariant height < 0 ==> |locator| > 0
        invariant forall k :: 0 <= k < |locator| ==>
                    Depth(k) < |headers| && locator[k] == headers[tip - Depth(k)].hash
        decreases height
      {
        StrideFits(tip, |locator|);
        DepthStep(|locator|);
        StrideStep(|locator|);
        locator := locator + [headers[height].hash];
        if |locator| > 10 {
          step := step * 2;
        }
        height := height - step;
      }
    }

    /** The median of the last block times. */
    method MedianTime() returns (median: int)
      requires headers != []
      ensures median == Median(Times(headers))
    {
      hide Median, Window, Times, Sort;
      ghost var all := Times(headers);
      var n := |headers|;
      var times: seq<int> := [];
      var i := n - 1;
      while i >= 0 && |times| < MEDIAN_WINDOW
        invariant -1 <= i < n == |all|
        invariant |times| == n - 1 - i <= MEDIAN_WINDOW
        invariant multiset(times) == multiset(all[i + 1..])
      {
        CollectTime(headers, i, times);
        times := times + [headers[i].timestamp];
        i := i - 1;
      }
      MedianOfCollected(all, i + 1, times);
      times := Sort(AtMost, times);
      median := times[|times| / 2];
    }

    method LastRealBits(height: nat) returns (bits: uint32)
      requires height < |headers|
      ensures bits == headers[LastRealHeight(headers, height, params.powLimitBits)].bits
    {
      var h: nat := height;
      while h > 0 && h % RETARGET_INTERVAL != 0 && headers[h].bits == params.powLimitBits
        invariant h < |headers|
        invariant LastRealHeight(headers, h, params.powLimitBits) == LastRealHeight(headers, height, params.powLimitBits)
      {
        h := h - 1;
      }
      return headers[h].bits;
    }

    method CheckBits(w: WireHeader) returns (rejected: Option<Rejection>)
      requires headers != []
      ensures rejected == CheckDifficulty(params, headers, w)
    {
      hide LastRealHeight, NextBits;
      if params.net.RegTest? || params.net.SimNet? {
        return None;
      }
      var height := |headers|;
      var parent := headers[height - 1];
      var retarget := height % RETARGET_INTERVAL == 0;
      if params.reduceMinDifficulty && !retarget && w.bits == params.powLimitBits {
        if w.timestamp - parent.timestamp > params.minDiffReductionTime {
          return None;
        }
        var lastReal := LastRealBits(height - 1);
        if lastReal == params.powLimitBits {
          return None;
        }
        return Some(NoMinDifficultyGap);
      }
      if !retarget {
        return None;
      }
      var first := headers[height - RETARGET_INTERVAL];
      var oldBits := parent.bits;
      if params.enforceBIP94 {
        if w.timestamp < parent.timestamp - MAX_TIME_WARP {
          return Some(TimeWarp);
        }
        oldBits := first.bits;
      }
      var want := NextRetargetBits(first.timestamp, parent.timestamp, oldBits, params.powLimit);
      if want.Err? {
        return Some(BadBits(want.error));
      }
      if w.bits != want.value {
        return Some(WrongRetargetBits);
      }
      return None;
    }

    method CheckProofOfWork(w: WireHeader, hash: Hash) returns (rejected: Option<Rejection>)
      ensures rejected == CheckPoW(w, hash)
    {
      if w.bits == 0 {
        return Some(ZeroBits);
      }
      var target := CompactToBig(w.bits);
      if target.Err? {
        return Some(BadBits(target.error));
      }
      if target.value <= 0 {
        return Some(NonPositiveTarget);
      }
      if hash > target.value {
        return Some(HashAboveTarget);
      }
      return None;
    }
  }
}
