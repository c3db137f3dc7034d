/**
 What the sync makes of several peers' answers: majority votes, filter
 variants, and filters collected one by one (internal/sync/sync.go,
 internal/sync/filters.go, internal/sync/peers.go).
 */
module PeerAnswers {
  import opened Basics
  import opened IntSets
  import opened Transactions
  import opened SyncState

  // ------------------------------------------------------------ majority vote

  function Count(votes: seq<Hash>, v: Hash): nat {
    multiset(votes)[v]
  }

  ghost predicate IsMajority(votes: seq<Hash>, v: Hash) {
    2 * Count(votes, v) > |votes|
  }

  /** Two values cannot both have a strict majority, so the answer of a vote
      does not depend on the order the counts are walked in. */
  lemma MajorityUnique(votes: seq<Hash>, a: Hash, b: Hash)
    requires IsMajority(votes, a) && IsMajority(votes, b)
    ensures a == b
  {
    if a != b {
      CountTwo(votes, a, b);
    }
  }

  lemma {:induction false} CountTwo(votes: seq<Hash>, a: Hash, b: Hash)
    requires a != b
    ensures Count(votes, a) + Count(votes, b) <= |votes|
  {
    if votes != [] {
      var n := |votes| - 1;
      assert votes == votes[..n] + [votes[n]];
      CountTwo(votes[..n], a, b);
    }
  }

  /** A value has the majority when more voted for it than did not. */
  lemma MajorityIff(votes: seq<Hash>, v: Hash)
    ensures IsMajority(votes, v) <==>
              |set i | 0 <= i < |votes| && votes[i] == v| > |set i | 0 <= i < |votes| && votes[i] != v|
  {
    VotesSplit(votes, v);
  }

  lemma {:induction false} VotesSplit(votes: seq<Hash>, v: Hash)
    ensures Count(votes, v) == |set i | 0 <= i < |votes| && votes[i] == v|
    ensures |votes| - Count(votes, v) == |set i | 0 <= i < |votes| && votes[i] != v|
  {
    if votes != [] {
      var n := |votes| - 1;
      assert votes == votes[..n] + [votes[n]];
      VotesSplit(votes[..n], v);
      OneMoreVote(votes, v, n);
    }
  }

  lemma OneMoreVote(votes: seq<Hash>, v: Hash, n: nat)
    requires n == |votes| - 1
    ensures (set i | 0 <= i < |votes| && votes[i] == v) == (set i | 0 <= i < n && votes[..n][i] == v) + if votes[n] == v then {n} else {}
    ensures (set i | 0 <= i < |votes| && votes[i] != v) == (set i | 0 <= i < n && votes[..n][i] != v) + if votes[n] == v then {} else {n}
  {
  }

  /** The value a strict majority of the votes agrees on, if there is one. */
  method MajorityAnchor(votes: seq<Hash>) returns (anchor: Option<Hash>)
    ensures anchor.Some? ==> IsMajority(votes, anchor.value)
    ensures anchor.None? ==> forall v :: !IsMajority(votes, v)
  {
    if |votes| == 0 {
      return None;
    }
    var counts := CountVotes(votes);
    CountedOnce(votes, counts);
    var best := votes[0];
    var left := counts.Keys;
    while left != {}
      invariant left <= counts.Keys && best in counts
      invariant forall v :: v in counts && v !in left ==> counts[v] <= counts[best]
      decreases |left|
    {
      var vote := Pick(left);
      left := left - {vote};
      if counts[vote] > counts[best] {
        best := vote;
      }
    }
    BestIsMost(votes, counts, best);
    anchor := if counts[best] * 2 <= |votes| then None else Some(best);
  }

  ghost predicate Counted(votes: seq<Hash>, counts: map<Hash, nat>) {
    forall v :: (if v in counts then counts[v] else 0) == Count(votes, v)
  }

  method CountVotes(votes: seq<Hash>) returns (counts: map<Hash, nat>)
    ensures Counted(votes, counts)
  {
    counts := map[];
    for n := 0 to |votes|
      invariant Counted(votes[..n], counts)
    {
      assert votes[..n + 1] == votes[..n] + [votes[n]];
      counts := counts[votes[n] := (if votes[n] in counts then counts[votes[n]] else 0) + 1];
    }
    assert votes[..|votes|] == votes;
  }

  lemma CountedOnce(votes: seq<Hash>, counts: map<Hash, nat>)
    requires Counted(votes, counts) && votes != []
    ensures votes[0] in counts
  {
    assert votes[0] in multiset(votes);
    assert Count(votes, votes[0]) > 0;
  }

  lemma BestIsMost(votes: seq<Hash>, counts: map<Hash, nat>, best: Hash)
    requires Counted(votes, counts) && best in counts && forall v :: v in counts ==> counts[v] <= counts[best]
    ensures counts[best] == Count(votes, best) && forall v :: Count(votes, v) <= Count(votes, best)
  {
  }

  // ------------------------------------------------------------------ variants

  /** A filter served for a block, with its hash and its peers by their places in the list. */
  datatype Variant = Variant(data: FilterData, hash: Hash, peers: seq<nat>)

  /** The places of a hash in the list. */
  function PlacesOf(hashes: seq<Hash>, hash: Hash): seq<nat> {
    if hashes == [] then []
    else PlacesOf(hashes[..|hashes| - 1], hash) + if hashes[|hashes| - 1] == hash then [|hashes| - 1] else []
  }

  function HashesOf(got: seq<FilterData>, filterHash: FilterData -> Hash): (hashes: seq<Hash>)
    ensures |hashes| == |got|
  {
    seq(|got|, i requires 0 <= i < |got| => filterHash(got[i]))
  }

  lemma {:induction false} PlacesMember(hashes: seq<Hash>, hash: Hash, i: nat)
    ensures i in PlacesOf(hashes, hash) <==> i < |hashes| && hashes[i] == hash
  {
    if hashes != [] {
      PlacesMember(hashes[..|hashes| - 1], hash, i);
    }
  }

  /** The variant lists exactly the peers with its hash, and there is one. */
  ghost predicate IsGroup(v: Variant, hashes: seq<Hash>, filterHash: FilterData -> Hash) {
    v.peers == PlacesOf(hashes, v.hash) && v.peers != [] && filterHash(v.data) == v.hash
  }

  /** The variants are the peers' answers grouped by hash: every variant lists
      exactly the peers with its hash, no two share a hash and no peer is left out. */
  ghost predicate Groups(variants: seq<Variant>, got: seq<FilterData>, filterHash: FilterData -> Hash) {
    var hashes := HashesOf(got, filterHash);
    && (forall k :: 0 <= k < |variants| ==> IsGroup(variants[k], hashes, filterHash))
    && (forall j, k :: 0 <= j < k < |variants| ==> variants[j].hash != variants[k].hash)
    && (forall i :: 0 <= i < |hashes| ==> HasVariant(variants, hashes[i]))
  }

  ghost predicate HasVariant(variants: seq<Variant>, hash: Hash) {
    exists k :: 0 <= k < |variants| && variants[k].hash == hash
  }

  /** Every peer is in exactly one variant. */
  lemma GroupsPartition(variants: seq<Variant>, got: seq<FilterData>, filterHash: FilterData -> Hash, peer: nat)
    requires Groups(variants, got, filterHash) && peer < |got|
    ensures exists k :: 0 <= k < |variants| && peer in variants[k].peers && variants[k].hash == filterHash(got[peer])
    ensures forall j, k :: 0 <= j < k < |variants| ==> !(peer in variants[j].peers && peer in variants[k].peers)
  {
    var hashes := HashesOf(got, filterHash);
    forall k | 0 <= k < |variants|
      ensures peer in variants[k].peers <==> variants[k].hash == hashes[peer]
    {
      PlacesMember(hashes, variants[k].hash, peer);
    }
    assert HasVariant(variants, hashes[peer]);
  }

  /** The variants come in the order their first peers are listed. */
  ghost predicate InOrder(variants: seq<Variant>) {
    && (forall k :: 0 <= k < |variants| ==> variants[k].peers != [])
    && (forall j, k :: 0 <= j < k < |variants| ==> variants[j].peers[0] < variants[k].peers[0])
  }

  /** Ordered variants of the first i peers, found by their hash in the index. */
  ghost predicate Indexed(variants: seq<Variant>, byHash: map<Hash, nat>, i: nat) {
    && InOrder(variants)
    && (forall k :: 0 <= k < |variants| ==> variants[k].peers[0] < i)
    && (forall h :: h in byHash ==> byHash[h] < |variants| && variants[byHash[h]].hash == h)
    && (forall k :: 0 <= k < |variants| ==> variants[k].hash in byHash)
  }

  lemma IndexedNew(variants: seq<Variant>, byHash: map<Hash, nat>, i: nat, data: FilterData, hash: Hash)
    requires Indexed(variants, byHash, i) && hash !in byHash
    ensures Indexed(variants + [Variant(data, hash, [i])], byHash[hash := |variants|], i + 1)
    ensures forall k :: 0 <= k < |variants| ==> variants[k].hash != hash
  {
  }

  lemma IndexedMore(variants: seq<Variant>, byHash: map<Hash, nat>, i: nat, k: nat)
    requires Indexed(variants, byHash, i) && k < |variants|
    ensures Indexed(variants[k := variants[k].(peers := variants[k].peers + [i])], byHash, i + 1)
  {
  }

  /** The variants of one block, peer after peer. */
  method GroupVariants(got: seq<FilterData>, filterHash: FilterData -> Hash) returns (variants: seq<Variant>)
    ensures Groups(variants, got, filterHash)
    ensures InOrder(variants)
    ensures got != [] ==> variants != []
  {
    variants := [];
    var byHash: map<Hash, nat> := map[];
    for i := 0 to |got|
      invariant Groups(variants, got[..i], filterHash)
      invariant Indexed(variants, byHash, i)
      invariant i > 0 ==> variants != []
    {
      hide Groups;
      var data := got[i];
      var hash := filterHash(data);
      if hash !in byHash {
        IndexedNew(variants, byHash, i, data, hash);
        NewVariant(variants, got, filterHash, i);
        hide Indexed;
        byHash := byHash[hash := |variants|];
        variants := variants + [Variant(data, hash, [i])];
      } else {
        var k := byHash[hash];
        IndexedMore(variants, byHash, i, k);
        MoreOfVariant(variants, got, filterHash, i, k);
        hide Indexed;
        variants := variants[k := variants[k].(peers := variants[k].peers + [i])];
      }
    }
    assert got[..|got|] == got;
  }

  lemma PlacesGrow(got: seq<FilterData>, filterHash: FilterData -> Hash, i: nat, hash: Hash)
    requires i < |got|
    ensures PlacesOf(HashesOf(got[..i + 1], filterHash), hash) ==
            PlacesOf(HashesOf(got[..i], filterHash), hash) + if filterHash(got[i]) == hash then [i] else []
  {
    assert HashesOf(got[..i + 1], filterHash)[..i] == HashesOf(got[..i], filterHash);
  }

  lemma NewVariant(variants: seq<Variant>, got: seq<FilterData>, filterHash: FilterData -> Hash, i: nat)
    requires i < |got| && Groups(variants, got[..i], filterHash)
    requires forall k :: 0 <= k < |variants| ==> variants[k].hash != filterHash(got[i])
    ensures Groups(variants + [Variant(got[i], filterHash(got[i]), [i])], got[..i + 1], filterHash)
  {
    var hash := filterHash(got[i]);
    var all := variants + [Variant(got[i], hash, [i])];
    var hashes := HashesOf(got[..i + 1], filterHash);
    NoPlaces(HashesOf(got[..i], filterHash), hash, variants);
    forall k | 0 <= k < |all|
      ensures IsGroup(all[k], hashes, filterHash)
    {
      PlacesGrow(got, filterHash, i, all[k].hash);
    }
    forall p | 0 <= p < |hashes|
      ensures HasVariant(all, hashes[p])
    {
      if p < i {
        assert HasVariant(variants, HashesOf(got[..i], filterHash)[p]);
        assert hashes[p] == HashesOf(got[..i], filterHash)[p];
        var k :| 0 <= k < |variants| && variants[k].hash == hashes[p];
        assert all[k].hash == hashes[p];
      } else {
        assert all[|variants|].hash == hashes[p];
      }
    }
  }

  lemma {:induction false} NoPlaces(hashes: seq<Hash>, hash: Hash, variants: seq<Variant>)
    requires forall i :: 0 <= i < |hashes| ==> HasVariant(variants, hashes[i])
    requires forall k :: 0 <= k < |variants| ==> variants[k].hash != hash
    ensures PlacesOf(hashes, hash) == []
  {
    if hashes != [] {
      assert HasVariant(variants, hashes[|hashes| - 1]);
      NoPlaces(hashes[..|hashes| - 1], hash, variants);
    }
  }

  lemma MoreOfVariant(variants: seq<Variant>, got: seq<FilterData>, filterHash: FilterData -> Hash, i: nat, k: nat)
    requires i < |got| && k < |variants| && Groups(variants, got[..i], filterHash)
    requires variants[k].hash == filterHash(got[i])
    ensures Groups(variants[k := variants[k].(peers := variants[k].peers + [i])], got[..i + 1], filterHash)
  {
    var all := variants[k := variants[k].(peers := variants[k].peers + [i])];
    var hashes := HashesOf(got[..i + 1], filterHash);
    forall j | 0 <= j < |all|
      ensures IsGroup(all[j], hashes, filterHash)
    {
      PlacesGrow(got, filterHash, i, all[j].hash);
    }
    forall p | 0 <= p < |hashes|
      ensures HasVariant(all, hashes[p])
    {
      if p < i {
        assert HasVariant(variants, HashesOf(got[..i], filterHash)[p]);
        assert hashes[p] == HashesOf(got[..i], filterHash)[p];
        var j :| 0 <= j < |variants| && variants[j].hash == hashes[p];
        assert all[j].hash == hashes[p];
      } else {
        assert all[k].hash == hashes[p];
      }
    }
  }

  // ------------------------------------------------------- settling a mismatch

  const OP_RETURN: byte := 0x6a

  /** Scripts a block filter must hold: all but empty ones and data carriers (BIP 158). */
  predicate Required(script: Script) {
    script != [] && script[0] != OP_RETURN
  }

  ghost predicate HoldsOutputs(env: Env, data: FilterData, hash: Hash, block: Block) {
    env.decodes(data)
    && forall n, i :: 0 <= n < |block| && 0 <= i < |block[n].outs| && Required(block[n].outs[i].script) ==>
         env.hit(data, hash, block[n].outs[i].script)
  }

  /** Whether the filter decodes and holds every required output script of the block. */
  method FilterHasOutputs(env: Env, data: FilterData, hash: Hash, block: Block) returns (ok: bool)
    ensures ok == HoldsOutputs(env, data, hash, block)
    ensures ok ==> env.decodes(data)
    ensures env.decodes(data) ==>
              (!ok <==> exists n, i :: 0 <= n < |block| && 0 <= i < |block[n].outs| && block[n].outs[i].script != []
                                       && block[n].outs[i].script[0] != 0x6a && !env.hit(data, hash, block[n].outs[i].script))
  {
    var outputs: seq<Script> := [];
    for n := 0 to |block|
      invariant forall k :: 0 <= k < |outputs| ==> Listed(block[..n], outputs[k])
      invariant forall m, i :: 0 <= m < n && 0 <= i < |block[m].outs| && Required(block[m].outs[i].script) ==> block[m].outs[i].script in outputs
    {
      outputs := AddOutputScripts(outputs, block, n);
    }
    assert block[..|block|] == block;
    ok := env.decodes(data);
    if ok {
      for k := 0 to |outputs|
        invariant ok <==> forall j :: 0 <= j < k ==> env.hit(data, hash, outputs[j])
      {
        ok := ok && env.hit(data, hash, outputs[k]);
      }
      if !ok {
        var k :| 0 <= k < |outputs| && !env.hit(data, hash, outputs[k]);
        assert Listed(block, outputs[k]);
      }
    }
  }

  ghost predicate Listed(block: Block, script: Script) {
    exists n, i :: 0 <= n < |block| && 0 <= i < |block[n].outs| && Required(script) && block[n].outs[i].script == script
  }

  method AddOutputScripts(outputs: seq<Script>, block: Block, n: nat) returns (all: seq<Script>)
    requires n < |block|
    requires forall k :: 0 <= k < |outputs| ==> Listed(block[..n], outputs[k])
    ensures forall k :: 0 <= k < |all| ==> Listed(block[..n + 1], all[k])
    ensures forall s :: s in outputs ==> s in all
    ensures forall i :: 0 <= i < |block[n].outs| && Required(block[n].outs[i].script) ==> block[n].outs[i].script in all
  {
    all := outputs;
    forall k | 0 <= k < |outputs|
      ensures Listed(block[..n + 1], outputs[k])
    {
      var m, i :| 0 <= m < n && 0 <= i < |block[..n][m].outs| && Required(outputs[k]) && block[..n][m].outs[i].script == outputs[k];
      assert block[..n + 1][m] == block[..n][m];
    }
    assert block[..n + 1][n] == block[n];
    for i := 0 to |block[n].outs|
      invariant forall k :: 0 <= k < |all| ==> Listed(block[..n + 1], all[k])
      invariant forall s :: s in outputs ==> s in all
      invariant forall j :: 0 <= j < i && Required(block[n].outs[j].script) ==> block[n].outs[j].script in all
    {
      var script := block[n].outs[i].script;
      if Required(script) && script !in all {
        assert block[..n + 1][n].outs[i].script == script;
        all := all + [script];
      }
    }
  }

  /** Variant k is block-valid with more peers than every valid one before it
      and no fewer than any after: the earliest of the valid ones with most peers. */
  ghost predicate Wins(variants: seq<Variant>, valid: seq<bool>, k: nat) {
    && |valid| == |variants| && k < |variants| && valid[k]
    && (forall j :: 0 <= j < |variants| && valid[j] ==> |variants[j].peers| <= |variants[k].peers|)
    && (forall j :: 0 <= j < k && valid[j] ==> |variants[j].peers| < |variants[k].peers|)
  }

  /** Unless none is valid there is exactly one such variant. */
  lemma {:induction false} WinnerIsOne(variants: seq<Variant>, valid: seq<bool>) returns (k: nat)
    requires |valid| == |variants| && exists i :: 0 <= i < |valid| && valid[i]
    ensures Wins(variants, valid, k) && forall j: nat :: Wins(variants, valid, j) ==> j == k
  {
    var n := |variants| - 1;
    if forall i :: 0 <= i < n ==> !valid[i] {
      k := n;
    } else {
      var i :| 0 <= i < n && valid[i];
      assert valid[..n][i];
      k := WinnerIsOne(variants[..n], valid[..n]);
      assert Wins(variants[..n], valid[..n], k);
      if valid[n] && |variants[n].peers| > |variants[k].peers| {
        k := n;
      }
    }
  }

  /** Checks every variant against the verified block and picks the winner. */
  method ResolveVariants(env: Env, variants: seq<Variant>, hash: Hash, block: Block)
    returns (winner: Option<nat>, valid: seq<bool>)
    ensures |valid| == |variants|
    ensures forall k :: 0 <= k < |variants| ==> valid[k] == HoldsOutputs(env, variants[k].data, hash, block)
    ensures winner.Some? ==> Wins(variants, valid, winner.value)
    ensures winner.None? ==> forall k :: 0 <= k < |variants| ==> !valid[k]
  {
    winner, valid := None, [];
    for i := 0 to |variants|
      invariant |valid| == i
      invariant forall k :: 0 <= k < i ==> valid[k] == HoldsOutputs(env, variants[k].data, hash, block)
      invariant winner.Some? ==> Wins(variants[..i], valid, winner.value)
      invariant winner.None? ==> forall k :: 0 <= k < i ==> !valid[k]
    {
      var ok := FilterHasOutputs(env, variants[i].data, hash, block);
      valid := valid + [ok];
      assert forall k :: 0 <= k < i ==> variants[..i + 1][k] == variants[..i][k];
      if ok && (winner.None? || |variants[i].peers| > |variants[winner.value].peers|) {
        winner := Some(i);
      }
    }
    assert variants[..|variants|] == variants;
  }

  /** The outcome of a choice: the filter, or none, and the peers to disconnect. */
  datatype Choice = Choice(data: Option<FilterData>, dropped: set<nat>)

  /** The one filter taken for a block. With more than one variant the block
      itself decides, and the peers of the losing ones are dropped. */
  method ChooseFilter(env: Env, variants: seq<Variant>, got: seq<FilterData>, hash: Hash, fetched: bool)
    returns (choice: Choice)
    requires variants != [] && Groups(variants, got, env.filterHash) && InOrder(variants)
    ensures |variants| == 1 ==> choice == Choice(Some(variants[0].data), {})
    ensures |variants| > 1 && !fetched ==> choice == Choice(None, {})
    ensures |variants| > 1 && fetched && choice.data.Some? ==>
              exists k: nat, valid :: Wins(variants, valid, k) && choice.data.value == variants[k].data
                && (forall j :: 0 <= j < |variants| ==> valid[j] == HoldsOutputs(env, variants[j].data, hash, env.blockOf(hash)))
                && (forall p :: 0 <= p < |got| ==> (p in choice.dropped <==> env.filterHash(got[p]) != variants[k].hash))
    ensures |variants| > 1 && fetched && choice.data.None? ==>
              (forall j :: 0 <= j < |variants| ==> !HoldsOutputs(env, variants[j].data, hash, env.blockOf(hash)))
              && (forall p :: 0 <= p < |got| ==> p in choice.dropped)
  {
    if |variants| == 1 {
      return Choice(Some(variants[0].data), {});
    }
    if !fetched {
      return Choice(None, {});
    }
    var winner, valid := ResolveVariants(env, variants, hash, env.blockOf(hash));
    var dropped := DropAllBut(variants, winner);
    forall p | 0 <= p < |got|
      ensures p in dropped <==> winner.None? || env.filterHash(got[p]) != variants[winner.value].hash
    {
      GroupsPartition(variants, got, env.filterHash, p);
    }
    match winner
    case None => choice := Choice(None, dropped);
    case Some(k) =>
      assert Wins(variants, valid, k);
      choice := Choice(Some(variants[k].data), dropped);
  }

  /** The peers of every variant but one. */
  method DropAllBut(variants: seq<Variant>, winner: Option<nat>) returns (dropped: set<nat>)
    ensures forall p :: p in dropped <==> exists k :: 0 <= k < |variants| && winner != Some(k) && p in variants[k].peers
  {
    dropped := {};
    for k := 0 to |variants|
      invariant forall p :: p in dropped <==> exists j :: 0 <= j < k && winner != Some(j) && p in variants[j].peers
    {
      if winner != Some(k) {
        dropped := dropped + set p | p in variants[k].peers;
      }
    }
  }

  // ------------------------------------------------- filters one after another

  /** A received filter: whether it is of the requested type, the height of its
      block or -1, and its data, which is never nil. */
  datatype CFilter = CFilter(regular: bool, height: int, data: FilterData)

  /** The slot of a height can take the answer: it is in range and still nil. */
  predicate Fits(out: seq<Option<FilterData>>, start: int, answer: Option<CFilter>) {
    && answer.Some? && answer.value.regular
    && start <= answer.value.height < start + |out|
    && out[answer.value.height - start].None?
  }

  /** The slots after the answers arrived in turn, or none once one does not fit. */
  function Collect(start: int, n: nat, answers: seq<Option<CFilter>>): (out: Option<seq<Option<FilterData>>>)
    ensures out.Some? ==> |out.value| == n
  {
    if answers == [] then Some(seq(n, i => None))
    else
      var last := answers[|answers| - 1];
      match Collect(start, n, answers[..|answers| - 1])
      case None => None
      case Some(out) => if Fits(out, start, last) then Some(out[last.value.height - start := Some(last.value.data)]) else None
  }

  /** Awaits one answer per block of the range and files each under its height. */
  method GetCFilters(start: int, end: int, answers: seq<Option<CFilter>>) returns (out: Option<seq<Option<FilterData>>>)
    requires start <= end + 1 && |answers| == end - start + 1
    ensures out == Collect(start, end - start + 1, answers)
  {
    var n := end - start + 1;
    var slots: seq<Option<FilterData>> := seq(n, i => None);
    for k := 0 to n
      invariant Collect(start, n, answers[..k]) == Some(slots)
    {
      assert answers[..k + 1][..k] == answers[..k];
      var resp := answers[k];
      if resp.None? || !resp.value.regular || resp.value.height < start || resp.value.height > end || slots[resp.value.height - start].Some? {
        CollectStuck(start, n, answers, k + 1);
        return None;
      }
      slots := slots[resp.value.height - start := Some(resp.value.data)];
    }
    assert answers[..n] == answers;
    out := Some(slots);
  }

  lemma {:induction false} CollectStuck(start: int, n: nat, answers: seq<Option<CFilter>>, k: nat)
    requires k <= |answers| && Collect(start, n, answers[..k]).None?
    ensures Collect(start, n, answers).None?
    decreases |answers| - k
  {
    if k < |answers| {
      assert answers[..k + 1][..k] == answers[..k];
      CollectStuck(start, n, answers, k + 1);
    } else {
      assert answers[..k] == answers;
    }
  }

  function Filled(out: seq<Option<FilterData>>): nat {
    if out == [] then 0 else Filled(out[..|out| - 1]) + if out[|out| - 1].Some? then 1 else 0
  }

  lemma {:induction false} FilledUpdate(out: seq<Option<FilterData>>, i: nat, data: FilterData)
    requires i < |out| && out[i].None?
    ensures Filled(out[i := Some(data)]) == Filled(out) + 1
  {
    var n := |out| - 1;
    if i == n {
      assert out[i := Some(data)][..n] == out[..n];
    } else {
      assert out[i := Some(data)][..n] == out[..n][i := Some(data)];
      FilledUpdate(out[..n], i, data);
    }
  }

  lemma {:induction false} FilledAll(out: seq<Option<FilterData>>)
    ensures Filled(out) <= |out|
    ensures Filled(out) == |out| <==> forall i :: 0 <= i < |out| ==> out[i].Some?
  {
    if out != [] {
      var n := |out| - 1;
      FilledAll(out[..n]);
      assert (forall i :: 0 <= i < n ==> out[i].Some?) <==> forall i :: 0 <= i < n ==> out[..n][i].Some?;
    }
  }

  lemma {:induction false} FilledNone(n: nat, out: seq<Option<FilterData>>)
    requires out == seq(n, i => None)
    ensures Filled(out) == 0
  {
    if n > 0 {
      FilledNone(n - 1, out[..n - 1]);
    }
  }

  lemma {:induction false} FilledCount(start: int, n: nat, answers: seq<Option<CFilter>>)
    requires Collect(start, n, answers).Some?
    ensures Filled(Collect(start, n, answers).value) == |answers|
  {
    if answers == [] {
      FilledNone(n, Collect(start, n, answers).value);
    } else {
      var k := |answers| - 1;
      FilledCount(start, n, answers[..k]);
      var before := Collect(start, n, answers[..k]).value;
      FilledUpdate(before, answers[k].value.height - start, answers[k].value.data);
    }
  }

  /** Every answer is a filter of the type for a block of the range. */
  predicate InRange(answers: seq<Option<CFilter>>, start: int, n: nat) {
    forall k :: 0 <= k < |answers| ==> answers[k].Some? && answers[k].value.regular && start <= answers[k].value.height < start + n
  }

  /** No two answers are for one block. */
  predicate Once(answers: seq<Option<CFilter>>) {
    forall i, j :: 0 <= i < j < |answers| && answers[i].Some? && answers[j].Some? ==> answers[i].value.height != answers[j].value.height
  }

  /** Every answer is filed under its height, and nothing else is. */
  ghost predicate Filed(answers: seq<Option<CFilter>>, start: int, out: seq<Option<FilterData>>)
    requires InRange(answers, start, |out|)
  {
    && (forall k :: 0 <= k < |answers| ==> out[answers[k].value.height - start] == Some(answers[k].value.data))
    && (forall i :: 0 <= i < |out| && out[i].Some? ==> AnsweredAt(answers, start + i))
  }

  predicate AnsweredAt(answers: seq<Option<CFilter>>, height: int) {
    exists k :: 0 <= k < |answers| && answers[k].Some? && answers[k].value.height == height
  }

  lemma AnsweredMore(answers: seq<Option<CFilter>>, last: CFilter, height: int)
    ensures AnsweredAt(answers + [Some(last)], height) <==> AnsweredAt(answers, height) || last.height == height
  {
    var all := answers + [Some(last)];
    assert all[|answers|] == Some(last);
    if k :| 0 <= k < |answers| && answers[k].Some? && answers[k].value.height == height {
      assert all[k] == answers[k];
    }
  }

  lemma OneMoreAnswer(rest: seq<Option<CFilter>>, last: Option<CFilter>, start: int, n: nat)
    ensures InRange(rest + [last], start, n) <==> InRange(rest, start, n) && InRange([last], start, n)
    ensures last.Some? ==> (Once(rest + [last]) <==> Once(rest) && !AnsweredAt(rest, last.value.height))
  {
    var all := rest + [last];
    assert forall i :: 0 <= i < |rest| ==> all[i] == rest[i];
    assert all[|rest|] == last && [last][0] == last;
  }

  /** Where the answers are filed, a slot is free exactly when its height was not answered. */
  lemma FreeSlot(rest: seq<Option<CFilter>>, start: int, out: seq<Option<FilterData>>, height: int)
    requires InRange(rest, start, |out|) && Filed(rest, start, out) && start <= height < start + |out|
    ensures out[height - start].None? <==> !AnsweredAt(rest, height)
  {
    var i := height - start;
    assert out[i].Some? ==> AnsweredAt(rest, start + i);
    if AnsweredAt(rest, height) {
      var k :| 0 <= k < |rest| && rest[k].Some? && rest[k].value.height == height;
    }
  }

  lemma FiledMore(rest: seq<Option<CFilter>>, last: CFilter, start: int, out: seq<Option<FilterData>>)
    requires InRange(rest + [Some(last)], start, |out|) && InRange(rest, start, |out|) && Filed(rest, start, out)
    requires start <= last.height < start + |out| && out[last.height - start].None?
    ensures Filed(rest + [Some(last)], start, out[last.height - start := Some(last.data)])
  {
    var all, after := rest + [Some(last)], out[last.height - start := Some(last.data)];
    forall k | 0 <= k < |all|
      ensures after[all[k].value.height - start] == Some(all[k].value.data)
    {
      if k < |rest| {
        assert all[k] == rest[k];
      }
    }
    forall i | 0 <= i < |after| && after[i].Some?
      ensures AnsweredAt(all, start + i)
    {
      AnsweredMore(rest, last, start + i);
    }
  }

  /** The answers are taken exactly when each is for a block of the range and
      no two are for one block; then each is filed under its height. */
  lemma {:induction false} CollectIff(start: int, n: nat, answers: seq<Option<CFilter>>)
    ensures Collect(start, n, answers).Some? <==> InRange(answers, start, n) && Once(answers)
    ensures Collect(start, n, answers).Some? ==> Filed(answers, start, Collect(start, n, answers).value)
  {
    hide Once, AnsweredAt, Filed;
    if answers == [] {
      NoAnswers(start, n);
    } else {
      var last := answers[|answers| - 1];
      var rest := answers[..|answers| - 1];
      CollectIff(start, n, rest);
      assert answers == rest + [last];
      OneMoreAnswer(rest, last, start, n);
      if Collect(start, n, rest).Some? && InRange([last], start, n) {
        assert [last][0] == last;
        FreeSlot(rest, start, Collect(start, n, rest).value, last.value.height);
        if Fits(Collect(start, n, rest).value, start, last) {
          FiledMore(rest, last.value, start, Collect(start, n, rest).value);
        }
      }
    }
  }

  lemma NoAnswers(start: int, n: nat)
    ensures InRange([], start, n) && Once([]) && Filed([], start, Collect(start, n, []).value)
  {
  }

  /** As many answers as blocks, when taken, fill every slot: the request has
      the filter of every block, each from the one answer for its height. */
  lemma CollectComplete(start: int, answers: seq<Option<CFilter>>)
    requires Collect(start, |answers|, answers).Some?
    ensures forall i :: 0 <= i < |answers| ==> FiledAt(start, answers, Collect(start, |answers|, answers).value, i)
  {
    var out := Collect(start, |answers|, answers).value;
    FilledCount(start, |answers|, answers);
    FilledAll(out);
    CollectIff(start, |answers|, answers);
    hide Collect, Filled, Once;
    forall i | 0 <= i < |answers|
      ensures FiledAt(start, answers, out, i)
    {
      assert out[i].Some?;
      var k :| 0 <= k < |answers| && answers[k].Some? && answers[k].value.height == start + i;
    }
  }

  ghost predicate FiledAt(start: int, answers: seq<Option<CFilter>>, out: seq<Option<FilterData>>, i: nat) {
    i < |out| && out[i].Some?
    && exists k :: 0 <= k < |answers| && answers[k] == Some(CFilter(true, start + i, out[i].value))
  }

  // -------------------------------------------- filters against committed hashes

  /** Whether a peer's filters are those it committed to by their hashes. */
  method CheckCommitted(filters: seq<FilterData>, hashes: seq<Hash>, offset: nat, filterHash: FilterData -> Hash)
    returns (ok: bool)
    requires offset + |filters| <= |hashes|
    ensures ok <==> Committed(filters, hashes, offset, filterHash)
  {
    ok := true;
    for i := 0 to |filters|
      invariant ok
      invariant forall k :: 0 <= k < i ==> filterHash(filters[k]) == hashes[offset + k]
    {
      if filterHash(filters[i]) != hashes[offset + i] {
        return false;
      }
    }
  }

  predicate Committed(filters: seq<FilterData>, hashes: seq<Hash>, offset: nat, filterHash: FilterData -> Hash) {
    && offset + |filters| <= |hashes|
    && forall k :: 0 <= k < |filters| ==> filterHash(filters[k]) == hashes[offset + k]
  }

  /** The check passes exactly when what the peer committed to for the range are
      the hashes of the filters it served. */
  lemma CommittedIff(filters: seq<FilterData>, hashes: seq<Hash>, offset: nat, filterHash: FilterData -> Hash)
    requires offset + |filters| <= |hashes|
    ensures Committed(filters, hashes, offset, filterHash) <==> hashes[offset..offset + |filters|] == HashesOf(filters, filterHash)
  {
    var part := hashes[offset..offset + |filters|];
    assert forall k :: 0 <= k < |filters| ==> part[k] == hashes[offset + k];
  }

  /** Peers that committed to the same hashes and pass the check served the
      same filters, so no block splits them into variants. */
  lemma CommittedAgree(env: Env, a: seq<FilterData>, b: seq<FilterData>, hashes: seq<Hash>, others: seq<Hash>,
      offset: nat)
    requires IdealFilterHash(env) && |a| == |b|
    requires Committed(a, hashes, offset, env.filterHash) && Committed(b, others, offset, env.filterHash)
    ensures a == b <==> hashes[offset..offset + |a|] == others[offset..offset + |a|]
  {
    var x, y := hashes[offset..offset + |a|], others[offset..offset + |a|];
    assert forall k :: 0 <= k < |a| ==> x[k] == env.filterHash(a[k]) && y[k] == env.filterHash(b[k]);
    if x == y {
      forall k | 0 <= k < |a|
        ensures a[k] == b[k]
      {
        assert x[k] == y[k];
      }
    }
  }
}
