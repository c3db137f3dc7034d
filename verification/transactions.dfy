/** Transactions as the wallet sees them: their id, what they spend and what they pay. */
module Transactions {
  import opened Basics

  type byte = x: int | 0 <= x < 256

  /** An output script, and the addresses and derivation paths that name it. */
  type Script = seq<byte>

  type Address = string

  datatype OutPoint = OutPoint(hash: Hash, index: nat)

  datatype TxOut = TxOut(value: int, script: Script)

  /** A decoded transaction: its id stands for the hash of its serialised form. */
  datatype Tx = Tx(id: Hash, ins: seq<OutPoint>, outs: seq<TxOut>)

  type Block = seq<Tx>

  /** Distinct ids, none of them the null hash: what transaction hashing gives. */
  ghost predicate DistinctIds(txs: seq<Tx>) {
    && (forall i :: 0 <= i < |txs| ==> txs[i].id != ZERO_HASH)
    && (forall i, j :: 0 <= i < j < |txs| ==> txs[i].id != txs[j].id)
  }

  predicate Pays(tx: Tx, mine: set<Script>) {
    exists i :: 0 <= i < |tx.outs| && tx.outs[i].script in mine
  }

  /** Every outpoint the transactions spend, in order and with repetitions. */
  function AllIns(txs: seq<Tx>): seq<OutPoint> {
    if txs == [] then [] else AllIns(txs[..|txs| - 1]) + txs[|txs| - 1].ins
  }

  ghost function Spent(txs: seq<Tx>): set<OutPoint> {
    set op | op in AllIns(txs)
  }

  lemma {:induction false} AllInsMember(txs: seq<Tx>, op: OutPoint)
    ensures op in AllIns(txs) <==> exists n :: 0 <= n < |txs| && op in txs[n].ins
  {
    if txs != [] {
      var n := |txs| - 1;
      AllInsMember(txs[..n], op);
      assert op in AllIns(txs) <==> op in AllIns(txs[..n]) || op in txs[n].ins;
      assert forall k :: 0 <= k < n ==> txs[..n][k] == txs[k];
    }
  }
}
