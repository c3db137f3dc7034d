/**
 The arithmetic of a wallet's coins: what the transactions pay to the wallet,
 what they spend of it, and how the totals relate.
 */
module Ledger {
  import opened Basics
  import opened Transactions

  // ------------------------------------------------------------ sums of maps

  ghost function Sum(m: map<OutPoint, int>): int
    decreases |m|
  {
    if m == map[] then 0
    else
      var k :| k in m;
      m[k] + Sum(m - {k})
  }

  lemma {:induction false} SumRemove(m: map<OutPoint, int>, k: OutPoint)
    requires k in m
    ensures Sum(m) == m[k] + Sum(m - {k})
    decreases |m|
  {
    var c :| c in m && Sum(m) == m[c] + Sum(m - {c});
    if c != k {
      SumRemove(m - {c}, k);
      SumRemove(m - {k}, c);
      assert m - {c} - {k} == m - {k} - {c};
    }
  }

  lemma SumAdd(m: map<OutPoint, int>, k: OutPoint, v: int)
    requires k !in m
    ensures Sum(m[k := v]) == Sum(m) + v
  {
    SumRemove(m[k := v], k);
    assert m[k := v] - {k} == m;
  }

  lemma {:induction false} SumUnion(a: map<OutPoint, int>, b: map<OutPoint, int>)
    requires a.Keys !! b.Keys
    ensures Sum(a + b) == Sum(a) + Sum(b)
    decreases |b|
  {
    if b == map[] {
      assert a + b == a;
    } else {
      var k :| k in b;
      SumRemove(b, k);
      SumUnion(a, b - {k});
      UnionRemove(a, b, k);
    }
  }

  lemma UnionRemove(a: map<OutPoint, int>, b: map<OutPoint, int>, k: OutPoint)
    requires k in b && k !in a
    ensures Sum(a + b) == b[k] + Sum(a + (b - {k}))
  {
    SumRemove(a + b, k);
    assert (a + b) - {k} == a + (b - {k});
  }

  lemma SumSplit(m: map<OutPoint, int>, keys: set<OutPoint>)
    ensures Sum(m) == Sum(m - keys) + Sum(Restrict(m, keys))
  {
    SumUnion(m - keys, Restrict(m, keys));
    assert (m - keys) + Restrict(m, keys) == m;
  }

  function Restrict<V>(m: map<OutPoint, V>, keys: set<OutPoint>): map<OutPoint, V> {
    map k | k in m && k in keys :: m[k]
  }

  lemma {:induction false} SumNonNegative(m: map<OutPoint, int>)
    requires forall k :: k in m ==> m[k] >= 0
    ensures Sum(m) >= 0
    ensures Sum(m) == 0 <==> forall k :: k in m ==> m[k] == 0
    decreases |m|
  {
    if m != map[] {
      var k :| k in m && Sum(m) == m[k] + Sum(m - {k});
      SumNonNegative(m - {k});
      forall j | j in m && j != k
        ensures j in m - {k}
      {
      }
    }
  }

  // ------------------------------------------------------------------- coins

  /** The wallet outputs of the first n outputs of a transaction. */
  function CoinsOf(tx: Tx, n: nat, mine: set<Script>): (m: map<OutPoint, int>)
    requires n <= |tx.outs|
    ensures forall op :: op in m <==> op.hash == tx.id && op.index < n && tx.outs[op.index].script in mine
    ensures forall op :: op in m ==> m[op] == tx.outs[op.index].value
  {
    if n == 0 then map[]
    else if tx.outs[n - 1].script in mine then CoinsOf(tx, n - 1, mine)[OutPoint(tx.id, n - 1) := tx.outs[n - 1].value]
    else CoinsOf(tx, n - 1, mine)
  }

  /** Every wallet output the transactions make. */
  function CoinMap(txs: seq<Tx>, mine: set<Script>): map<OutPoint, int> {
    if txs == [] then map[]
    else
      var tx := txs[|txs| - 1];
      CoinMap(txs[..|txs| - 1], mine) + CoinsOf(tx, |tx.outs|, mine)
  }

  /** The wallet outputs that none of the transactions spends. */
  ghost function Unspent(txs: seq<Tx>, mine: set<Script>): map<OutPoint, int> {
    CoinMap(txs, mine) - Spent(txs)
  }

  /** The outpoint is a wallet output of the n-th transaction. */
  predicate MadeBy(txs: seq<Tx>, n: nat, mine: set<Script>, op: OutPoint) {
    n < |txs| && txs[n].id == op.hash && op.index < |txs[n].outs| && txs[n].outs[op.index].script in mine
  }

  /** A wallet output is known by the one transaction with its id. */
  lemma {:induction false} CoinMapMember(txs: seq<Tx>, mine: set<Script>, op: OutPoint)
    requires DistinctIds(txs)
    ensures op in CoinMap(txs, mine) <==>
              exists n :: 0 <= n < |txs| && txs[n].id == op.hash && op.index < |txs[n].outs| && txs[n].outs[op.index].script in mine
    ensures forall n :: 0 <= n < |txs| && txs[n].id == op.hash && op in CoinMap(txs, mine) ==>
              op.index < |txs[n].outs| && txs[n].outs[op.index].script in mine
              && CoinMap(txs, mine)[op] == txs[n].outs[op.index].value
  {
    CoinMadeBy(txs, mine, op);
    hide CoinMap;
    if n: nat :| MadeBy(txs, n, mine, op) {
      assert 0 <= n < |txs|;
    }
    forall n | 0 <= n < |txs| && txs[n].id == op.hash && op in CoinMap(txs, mine)
      ensures MadeBy(txs, n, mine, op)
    {
      var k: nat :| MadeBy(txs, k, mine, op);
      assert k == n;
    }
  }

  lemma {:induction false} CoinMadeBy(txs: seq<Tx>, mine: set<Script>, op: OutPoint)
    requires DistinctIds(txs)
    ensures op in CoinMap(txs, mine) <==> exists n: nat :: MadeBy(txs, n, mine, op)
    ensures forall n: nat :: MadeBy(txs, n, mine, op) ==> op in CoinMap(txs, mine) && CoinMap(txs, mine)[op] == txs[n].outs[op.index].value
  {
    if txs != [] {
      var last := |txs| - 1;
      CoinMadeBy(txs[..last], mine, op);
      forall n: nat
        ensures n < last ==> (MadeBy(txs, n, mine, op) <==> MadeBy(txs[..last], n, mine, op))
        ensures MadeBy(txs[..last], n, mine, op) ==> MadeBy(txs, n, mine, op) && n < last
      {
      }
      assert op in CoinsOf(txs[last], |txs[last].outs|, mine) <==> MadeBy(txs, last, mine, op);
      if MadeBy(txs, last, mine, op) {
        forall n: nat | MadeBy(txs, n, mine, op)
          ensures n == last
        {
        }
      }
    }
  }

  // ------------------------------------------------- what each one adds up to

  /** What a transaction pays to the wallet, of its first n outputs. */
  function PaidTo(tx: Tx, n: nat, mine: set<Script>): int
    requires n <= |tx.outs|
  {
    if n == 0 then 0 else PaidTo(tx, n - 1, mine) + if tx.outs[n - 1].script in mine then tx.outs[n - 1].value else 0
  }

  /** The value the outpoints take from the coins, repetitions counted each time. */
  function Taken(coins: map<OutPoint, int>, ins: seq<OutPoint>): int {
    if ins == [] then 0
    else Taken(coins, ins[..|ins| - 1]) + ValueIn(coins, ins[|ins| - 1])
  }

  function ValueIn(coins: map<OutPoint, int>, op: OutPoint): int {
    if op in coins then coins[op] else 0
  }

  /** The value taken again by outpoints already listed. */
  function TakenTwice(coins: map<OutPoint, int>, ins: seq<OutPoint>): int {
    if ins == [] then 0
    else
      var rest, op := ins[..|ins| - 1], ins[|ins| - 1];
      TakenTwice(coins, rest) + if op in rest then ValueIn(coins, op) else 0
  }

  /** What the wallet gains by a transaction, the wallet's coins being those. */
  function Net(tx: Tx, coins: map<OutPoint, int>, mine: set<Script>): int {
    PaidTo(tx, |tx.outs|, mine) - Taken(coins, tx.ins)
  }

  function SumNet(txs: seq<Tx>, coins: map<OutPoint, int>, mine: set<Script>): int {
    if txs == [] then 0
    else SumNet(txs[..|txs| - 1], coins, mine) + Net(txs[|txs| - 1], coins, mine)
  }

  lemma {:induction false} SumCoinsOf(tx: Tx, n: nat, mine: set<Script>)
    requires n <= |tx.outs|
    ensures Sum(CoinsOf(tx, n, mine)) == PaidTo(tx, n, mine)
  {
    if n > 0 {
      SumCoinsOf(tx, n - 1, mine);
      if tx.outs[n - 1].script in mine {
        SumAdd(CoinsOf(tx, n - 1, mine), OutPoint(tx.id, n - 1), tx.outs[n - 1].value);
      }
    }
  }

  lemma {:induction false} TakenAppend(coins: map<OutPoint, int>, a: seq<OutPoint>, b: seq<OutPoint>)
    ensures Taken(coins, a + b) == Taken(coins, a) + Taken(coins, b)
  {
    if b == [] {
      assert a + b == a;
    } else {
      var n := |b| - 1;
      assert (a + b)[..|a + b| - 1] == a + b[..n];
      TakenAppend(coins, a, b[..n]);
    }
  }

  /** The net amounts add up to what was ever paid less what was ever taken. */
  lemma {:induction false} SumNetSplits(txs: seq<Tx>, coins: map<OutPoint, int>, mine: set<Script>)
    requires DistinctIds(txs)
    ensures SumNet(txs, coins, mine) == Sum(CoinMap(txs, mine)) - Taken(coins, AllIns(txs))
  {
    if txs != [] {
      var last := |txs| - 1;
      var tx := txs[last];
      SumNetSplits(txs[..last], coins, mine);
      TakenAppend(coins, AllIns(txs[..last]), tx.ins);
      SumCoinsOf(tx, |tx.outs|, mine);
      forall op | op in CoinMap(txs[..last], mine)
        ensures op !in CoinsOf(tx, |tx.outs|, mine)
      {
        CoinMapMember(txs[..last], mine, op);
      }
      SumUnion(CoinMap(txs[..last], mine), CoinsOf(tx, |tx.outs|, mine));
    }
  }

  /** Taking outpoints one by one takes every coin among them once, and some again. */
  lemma {:induction false} TakenSplits(coins: map<OutPoint, int>, ins: seq<OutPoint>)
    ensures Taken(coins, ins) == Sum(Restrict(coins, set op | op in ins)) + TakenTwice(coins, ins)
  {
    if ins == [] {
      assert Restrict(coins, set op | op in ins) == map[];
    } else {
      var rest, op := ins[..|ins| - 1], ins[|ins| - 1];
      var before, after := set o | o in rest, set o | o in ins;
      TakenSplits(coins, rest);
      assert ins == rest + [op];
      assert after == before + {op};
      if op in rest || op !in coins {
        assert Restrict(coins, after) == Restrict(coins, before);
      } else {
        assert Restrict(coins, after) == Restrict(coins, before)[op := coins[op]];
        SumAdd(Restrict(coins, before), op, coins[op]);
      }
    }
  }

  /** Conservation: the net amounts of the transactions, and the value they
      spend more than once, add up to the coins they leave. */
  lemma Conservation(txs: seq<Tx>, mine: set<Script>)
    requires DistinctIds(txs)
    ensures Sum(Unspent(txs, mine)) ==
            SumNet(txs, CoinMap(txs, mine), mine) + TakenTwice(CoinMap(txs, mine), AllIns(txs))
  {
    var coins := CoinMap(txs, mine);
    SumNetSplits(txs, coins, mine);
    TakenSplits(coins, AllIns(txs));
    SumSplit(coins, Spent(txs));
  }

  ghost predicate NoDoubleSpend(txs: seq<Tx>) {
    forall i, j :: 0 <= i < j < |AllIns(txs)| ==> AllIns(txs)[i] != AllIns(txs)[j]
  }

  lemma {:induction false} NothingTakenTwice(coins: map<OutPoint, int>, ins: seq<OutPoint>)
    requires forall i, j :: 0 <= i < j < |ins| ==> ins[i] != ins[j]
    ensures TakenTwice(coins, ins) == 0
  {
    if ins != [] {
      NothingTakenTwice(coins, ins[..|ins| - 1]);
    }
  }

  /** With values that are never negative, the totals agree exactly when no
      coin of any value is spent twice. */
  lemma {:induction false} TakenTwiceIsZero(coins: map<OutPoint, int>, ins: seq<OutPoint>)
    requires forall op :: op in coins ==> coins[op] >= 0
    ensures TakenTwice(coins, ins) >= 0
    ensures TakenTwice(coins, ins) == 0 <==>
              forall i, j :: 0 <= i < j < |ins| && ins[i] == ins[j] ==> ValueIn(coins, ins[i]) == 0
  {
    if ins != [] {
      var n := |ins| - 1;
      var rest := ins[..n];
      TakenTwiceIsZero(coins, rest);
      if TakenTwice(coins, ins) == 0 {
        forall i, j | 0 <= i < j < |ins| && ins[i] == ins[j]
          ensures ValueIn(coins, ins[i]) == 0
        {
          if j < n {
            assert rest[i] == rest[j];
          } else {
            assert rest[i] == ins[n];
          }
        }
      } else {
        assert TakenTwice(coins, rest) > 0 || (ins[n] in rest && ValueIn(coins, ins[n]) > 0);
        if TakenTwice(coins, rest) > 0 {
          var i, j :| 0 <= i < j < |rest| && rest[i] == rest[j] && ValueIn(coins, rest[i]) != 0;
          assert ins[i] == ins[j];
        } else {
          var i :| 0 <= i < |rest| && rest[i] == ins[n];
          assert ins[i] == ins[n];
        }
      }
    }
  }

  // --------------------------------------------------- any transaction order

  lemma {:induction false} SumNetOfPermutation(a: seq<Tx>, b: seq<Tx>, coins: map<OutPoint, int>, mine: set<Script>)
    requires multiset(a) == multiset(b)
    ensures SumNet(a, coins, mine) == SumNet(b, coins, mine)
  {
    hide Net;
    if a == [] {
      assert |multiset(b)| == 0;
    } else {
      var k := LastOfPermutation(a, b);
      SumNetOfPermutation(a[..|a| - 1], b[..k] + b[k + 1..], coins, mine);
      SumNetWithout(b, k, coins, mine);
    }
  }

  /** Where a permutation has the last element, and what is left without it. */
  lemma LastOfPermutation(a: seq<Tx>, b: seq<Tx>) returns (k: nat)
    requires a != [] && multiset(a) == multiset(b)
    ensures k < |b| && b[k] == a[|a| - 1]
    ensures multiset(a[..|a| - 1]) == multiset(b[..k] + b[k + 1..])
  {
    var n := |a| - 1;
    assert a == a[..n] + [a[n]];
    assert a[n] in multiset(b);
    k :| 0 <= k < |b| && b[k] == a[n];
    MultisetWithout(b, k);
  }

  lemma MultisetWithout(b: seq<Tx>, k: nat)
    requires k < |b|
    ensures multiset(b[..k] + b[k + 1..]) == multiset(b) - multiset{b[k]}
  {
    assert b == b[..k] + [b[k]] + b[k + 1..];
  }

  lemma SumNetWithout(b: seq<Tx>, k: nat, coins: map<OutPoint, int>, mine: set<Script>)
    requires k < |b|
    ensures SumNet(b, coins, mine) == SumNet(b[..k] + b[k + 1..], coins, mine) + Net(b[k], coins, mine)
  {
    hide Net;
    assert b == b[..k + 1] + b[k + 1..];
    SumNetAppend(b[..k + 1], b[k + 1..], coins, mine);
    assert b[..k + 1][..k] == b[..k];
    SumNetAppend(b[..k], b[k + 1..], coins, mine);
  }

  lemma {:induction false} SumNetAppend(a: seq<Tx>, b: seq<Tx>, coins: map<OutPoint, int>, mine: set<Script>)
    ensures SumNet(a + b, coins, mine) == SumNet(a, coins, mine) + SumNet(b, coins, mine)
  {
    if b == [] {
      assert a + b == a;
    } else {
      var n := |b| - 1;
      assert (a + b)[..|a + b| - 1] == a + b[..n];
      SumNetAppend(a, b[..n], coins, mine);
    }
  }

  lemma CoinOfPermutation(a: seq<Tx>, b: seq<Tx>, mine: set<Script>, op: OutPoint)
    requires DistinctIds(a) && DistinctIds(b) && multiset(a) == multiset(b)
    requires op in CoinMap(a, mine)
    ensures op in CoinMap(b, mine) && CoinMap(a, mine)[op] == CoinMap(b, mine)[op]
  {
    CoinMapMember(a, mine, op);
    CoinMapMember(b, mine, op);
    var n :| 0 <= n < |a| && a[n].id == op.hash && op.index < |a[n].outs| && a[n].outs[op.index].script in mine;
    assert a[n] in multiset(b);
    var k :| 0 <= k < |b| && b[k] == a[n];
  }

  lemma CoinMapOfPermutation(a: seq<Tx>, b: seq<Tx>, mine: set<Script>)
    requires DistinctIds(a) && DistinctIds(b) && multiset(a) == multiset(b)
    ensures CoinMap(a, mine) == CoinMap(b, mine)
  {
    forall op | op in CoinMap(a, mine)
      ensures op in CoinMap(b, mine) && CoinMap(a, mine)[op] == CoinMap(b, mine)[op]
    {
      CoinOfPermutation(a, b, mine, op);
    }
    forall op | op in CoinMap(b, mine)
      ensures op in CoinMap(a, mine)
    {
      CoinOfPermutation(b, a, mine, op);
    }
  }

  lemma SpentOfPermutation(a: seq<Tx>, b: seq<Tx>)
    requires multiset(a) == multiset(b)
    ensures Spent(a) <= Spent(b)
  {
    forall op | op in Spent(a)
      ensures op in Spent(b)
    {
      AllInsMember(a, op);
      AllInsMember(b, op);
      var n :| 0 <= n < |a| && op in a[n].ins;
      assert a[n] in multiset(b);
      var k :| 0 <= k < |b| && b[k] == a[n];
    }
  }

  /** Listing the transactions in another order changes neither the coins they
      leave nor the sum of their net amounts. */
  lemma OrderDoesNotMatter(a: seq<Tx>, b: seq<Tx>, mine: set<Script>)
    requires DistinctIds(a) && DistinctIds(b) && multiset(a) == multiset(b)
    ensures Unspent(a, mine) == Unspent(b, mine)
    ensures SumNet(a, CoinMap(a, mine), mine) == SumNet(b, CoinMap(b, mine), mine)
  {
    CoinMapOfPermutation(a, b, mine);
    SpentOfPermutation(a, b);
    SpentOfPermutation(b, a);
    SumNetOfPermutation(a, b, CoinMap(a, mine), mine);
  }
}
