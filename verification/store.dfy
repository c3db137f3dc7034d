/** The tables of the wallet database (internal/storage/sync.go). */
module Stores {
  import opened Basics
  import opened IntSets
  import opened Sorting
  import opened Transactions
  import opened Wallets
  import opened Scans

  /** One stored block header; the table has unique heights and unique hashes. */
  datatype StoredHeader = StoredHeader(
    height: int, hash: Hash, prevHash: Hash, merkleRoot: Hash, version: int, timestamp: int, bits: uint32, nonce: uint32)

  /** One stored filter row, its data pruned. */
  datatype FilterRow = FilterRow(height: int, blockHash: Hash, filterHeader: Hash)

  datatype MatchKey = MatchKey(height: int, address: Address)

  /** One recorded filter match. */
  datatype MatchRow = MatchRow(height: int, blockHash: Hash, address: Address, script: Script)

  /** A queued rescan of an address. */
  datatype Rescan = Rescan(address: Address, from: int)

  // ------------------------------------------------------- table operations

  /** Inserts a header, replacing every row it clashes with on height or hash. */
  function PutHeader(table: map<int, StoredHeader>, h: StoredHeader): map<int, StoredHeader> {
    (map k | k in table && table[k].hash != h.hash :: table[k])[h.height := h]
  }

  function PutHeaders(table: map<int, StoredHeader>, rows: seq<StoredHeader>): map<int, StoredHeader> {
    if rows == [] then table else PutHeader(PutHeaders(table, rows[..|rows| - 1]), rows[|rows| - 1])
  }

  /** No two rows of the table have one hash. */
  ghost predicate OnePerHash(table: map<int, StoredHeader>) {
    forall j, k :: j in table && k in table && table[j].hash == table[k].hash ==> j == k
  }

  lemma OneHeader(table: map<int, StoredHeader>, h: StoredHeader)
    requires OnePerHash(table)
    ensures OnePerHash(PutHeader(table, h))
  {
  }

  lemma {:induction false} OneEach(table: map<int, StoredHeader>, rows: seq<StoredHeader>)
    requires OnePerHash(table)
    ensures OnePerHash(PutHeaders(table, rows))
  {
    hide OnePerHash, PutHeader;
    if rows != [] {
      OneEach(table, rows[..|rows| - 1]);
      OneHeader(PutHeaders(table, rows[..|rows| - 1]), rows[|rows| - 1]);
    }
  }

  /** Storing a batch leaves one row a hash. Its last row is there, and so is every
      earlier row that shares neither height nor hash with one of the batch. */
  lemma {:induction false} PutHeadersKeep(table: map<int, StoredHeader>, rows: seq<StoredHeader>, k: int)
    requires OnePerHash(table)
    ensures OnePerHash(PutHeaders(table, rows))
    ensures rows != [] && rows[|rows| - 1].height == k ==> k in PutHeaders(table, rows) && PutHeaders(table, rows)[k] == rows[|rows| - 1]
    ensures k in table && (forall r :: r in rows ==> r.height != k && r.hash != table[k].hash) ==>
              k in PutHeaders(table, rows) && PutHeaders(table, rows)[k] == table[k]
    ensures k in PutHeaders(table, rows) ==> PutHeaders(table, rows)[k] in rows || (k in table && PutHeaders(table, rows)[k] == table[k])
  {
    OneEach(table, rows);
    hide OnePerHash;
    if rows != [] {
      var n := |rows| - 1;
      PutHeadersKeep(table, rows[..n], k);
      assert rows == rows[..n] + [rows[n]];
    }
  }

  function PutFilters(table: map<int, FilterRow>, rows: seq<FilterRow>): map<int, FilterRow> {
    if rows == [] then table
    else PutFilters(table, rows[..|rows| - 1])[rows[|rows| - 1].height := rows[|rows| - 1]]
  }

  /** The rows of a table at or below a height. */
  function UpTo<V>(table: map<int, V>, height: int): map<int, V> {
    map k | k in table && k <= height :: table[k]
  }

  function MatchesUpTo(table: map<MatchKey, MatchRow>, height: int): map<MatchKey, MatchRow> {
    map k | k in table && k.height <= height :: table[k]
  }

  predicate ByHeight(a: TxRow, b: TxRow) { a.height <= b.height }

  /** The heights of a table from a start on are a run without a gap. */
  ghost predicate Contiguous(heights: set<int>, from: int, end: int) {
    from <= end && forall h :: h >= from ==> (h in heights <==> h < end)
  }

  /** Unconfirmed rows but the one with the id. */
  function WithoutPending(rows: seq<PendingRow>, id: Hash): seq<PendingRow> {
    if rows == [] then []
    else WithoutPending(rows[..|rows| - 1], id) + if rows[|rows| - 1].tx.id == id then [] else [rows[|rows| - 1]]
  }

  lemma {:induction false} WithoutPendingMember(rows: seq<PendingRow>, id: Hash, row: PendingRow)
    ensures row in WithoutPending(rows, id) <==> row in rows && row.tx.id != id
  {
    if rows != [] {
      var n := |rows| - 1;
      WithoutPendingMember(rows[..n], id, row);
      assert rows == rows[..n] + [rows[n]];
    }
  }

  ghost predicate DistinctPending(pending: seq<PendingRow>) {
    forall i, j :: 0 <= i < j < |pending| ==> pending[i].tx.id != pending[j].tx.id
  }

  lemma {:induction false} WithoutPendingDistinct(rows: seq<PendingRow>, id: Hash)
    requires DistinctPending(rows)
    ensures DistinctPending(WithoutPending(rows, id))
  {
    if rows != [] {
      var n := |rows| - 1;
      var rest := WithoutPending(rows[..n], id);
      WithoutPendingDistinct(rows[..n], id);
      forall i | 0 <= i < |rest|
        ensures rest[i].tx.id != rows[n].tx.id
      {
        WithoutPendingMember(rows[..n], id, rest[i]);
        var k :| 0 <= k < n && rows[..n][k] == rest[i];
        assert rows[k] == rest[i];
      }
    }
  }

  /** The stored transactions are listed in the order of their blocks, none left
      out, and those of one block in the order they were stored. */
  lemma ListedByHeight(rows: seq<TxRow>)
    ensures var listed := Sort(ByHeight, rows);
            multiset(listed) == multiset(rows) && forall i, j :: 0 <= i < j < |listed| ==> listed[i].height <= listed[j].height
    ensures forall y :: Peers(ByHeight, y, Sort(ByHeight, rows)) == Peers(ByHeight, y, rows)
  {
    ByHeightPreorder();
    forall y
      ensures Peers(ByHeight, y, Sort(ByHeight, rows)) == Peers(ByHeight, y, rows)
    {
      SortStable(ByHeight, y, rows);
    }
    SortSorted(ByHeight, rows);
    hide Sort;
    var listed := Sort(ByHeight, rows);
    assert forall i, j :: 0 <= i < j < |listed| ==> ByHeight(listed[i], listed[j]);
  }

  lemma ByHeightPreorder()
    ensures TotalPreorder(ByHeight)
  {
  }

  // --------------------------------------------------- the queue of rescans

  /** The queue with a rescan more; an address queued before keeps the lower height. */
  function Enqueue(queue: map<Address, int>, r: Rescan): map<Address, int> {
    queue[r.address := if r.address in queue then Min(queue[r.address], r.from) else r.from]
  }

  function EnqueueAll(queue: map<Address, int>, rs: seq<Rescan>): map<Address, int> {
    if rs == [] then queue else Enqueue(EnqueueAll(queue, rs[..|rs| - 1]), rs[|rs| - 1])
  }

  /** The queue without a finished rescan, unless it is queued from a lower height by now. */
  function Dequeue(queue: map<Address, int>, r: Rescan): map<Address, int> {
    if r.address in queue && queue[r.address] >= r.from then queue - {r.address} else queue
  }

  function DequeueAll(queue: map<Address, int>, rs: seq<Rescan>): map<Address, int> {
    if rs == [] then queue else Dequeue(DequeueAll(queue, rs[..|rs| - 1]), rs[|rs| - 1])
  }

  lemma {:induction false} EnqueueMore(queue: map<Address, int>, a: seq<Rescan>, b: seq<Rescan>)
    ensures EnqueueAll(queue, a + b) == EnqueueAll(EnqueueAll(queue, a), b)
  {
    if b == [] {
      assert a + b == a;
    } else {
      var n := |b| - 1;
      assert (a + b)[..|a + b| - 1] == a + b[..n];
      EnqueueMore(queue, a, b[..n]);
    }
  }

  /** A queue holds the lowest height of every address queued. */
  lemma {:induction false} EnqueueAllAt(queue: map<Address, int>, rs: seq<Rescan>, a: Address)
    ensures a in EnqueueAll(queue, rs) <==> a in queue || exists r :: r in rs && r.address == a
    ensures a in queue ==> EnqueueAll(queue, rs)[a] <= queue[a]
    ensures forall r :: r in rs && r.address == a ==> EnqueueAll(queue, rs)[a] <= r.from
    ensures a in EnqueueAll(queue, rs) && !(a in queue && EnqueueAll(queue, rs)[a] == queue[a]) ==> Rescan(a, EnqueueAll(queue, rs)[a]) in rs
  {
    if rs != [] {
      var n := |rs| - 1;
      assert rs == rs[..n] + [rs[n]];
      EnqueueAllAt(queue, rs[..n], a);
    }
  }

  /** Finished rescans leave exactly the addresses not among them and those
      queued from a lower height than the one finished. */
  lemma {:induction false} DequeueAllAt(queue: map<Address, int>, rs: seq<Rescan>, a: Address)
    ensures a in DequeueAll(queue, rs) <==> a in queue && forall r :: r in rs && r.address == a ==> queue[a] < r.from
    ensures a in DequeueAll(queue, rs) ==> DequeueAll(queue, rs)[a] == queue[a]
  {
    if rs != [] {
      var n := |rs| - 1;
      assert rs == rs[..n] + [rs[n]];
      DequeueAllAt(queue, rs[..n], a);
    }
  }

  // --------------------------------------------------------------- the class

  class Store {
    var headers: map<int, StoredHeader>
    var filters: map<int, FilterRow>
    var matches: map<MatchKey, MatchRow>
    var transactions: seq<TxRow>
    var pending: seq<PendingRow>
    var rescans: map<Address, int>

    constructor ()
      ensures headers == map[] && filters == map[] && matches == map[]
      ensures transactions == [] && pending == [] && rescans == map[]
    {
      headers, filters, matches := map[], map[], map[];
      transactions, pending, rescans := [], [], map[];
    }

    /** Persists a batch of headers in one database transaction: all or, when it fails, none. */
    method SaveHeaders(rows: seq<StoredHeader>, fails: bool) returns (ok: bool)
      modifies this`headers
      ensures ok == !fails
      ensures headers == if fails then old(headers) else PutHeaders(old(headers), rows)
    {
      var table := headers;
      for n := 0 to |rows|
        invariant table == PutHeaders(old(headers), rows[..n])
      {
        table := PutHeader(table, rows[n]);
        assert rows[..n + 1][..n] == rows[..n];
      }
      assert rows[..|rows|] == rows;
      if fails {
        return false;
      }
      headers := table;
      return true;
    }

    /** The heights of the stored headers in order. */
    method HeaderHeights() returns (heights: seq<int>)
      ensures forall i, j :: 0 <= i < j < |heights| ==> heights[i] < heights[j]
      ensures forall h :: h in heights <==> h in headers
      ensures |heights| == |headers|
    {
      heights := SortedKeys(headers.Keys);
    }

    method DeleteHeadersFrom(height: int)
      modifies this`headers
      ensures headers == UpTo(old(headers), height)
    {
      headers := map k | k in headers && k <= height :: headers[k];
    }

    method DeleteFiltersFrom(height: int)
      modifies this`filters
      ensures filters == UpTo(old(filters), height)
    {
      filters := map k | k in filters && k <= height :: filters[k];
    }

    method DeleteMatchesFrom(height: int)
      modifies this`matches
      ensures matches == MatchesUpTo(old(matches), height)
    {
      matches := map k | k in matches && k.height <= height :: matches[k];
    }

    method DeleteTransactionsFrom(height: int)
      modifies this`transactions
      ensures transactions == KeepUpTo(old(transactions), height)
    {
      var kept: seq<TxRow> := [];
      for n := 0 to |transactions|
        invariant transactions == old(transactions)
        invariant kept == KeepUpTo(transactions[..n], height)
      {
        assert transactions[..n + 1][..n] == transactions[..n];
        if transactions[n].height <= height {
          kept := kept + [transactions[n]];
        }
      }
      assert transactions[..|transactions|] == transactions;
      transactions := kept;
    }

    /** Persists a batch of filter rows in one database transaction. */
    method SaveFilters(rows: seq<FilterRow>)
      modifies this`filters
      ensures filters == PutFilters(old(filters), rows)
    {
      var table := filters;
      for n := 0 to |rows|
        invariant filters == old(filters)
        invariant table == PutFilters(filters, rows[..n])
      {
        table := table[rows[n].height := rows[n]];
        assert rows[..n + 1][..n] == rows[..n];
      }
      assert rows[..|rows|] == rows;
      filters := table;
    }

    /** One past the highest filter row at or after the start, or the start:
        on rows without a gap, the first missing height. */
    method FilterResumeHeight(from: int) returns (height: int)
      ensures height >= from
      ensures forall h :: h in filters ==> h < from || h < height
      ensures height > from ==> height - 1 in filters
      ensures forall end :: Contiguous(filters.Keys, from, end) ==> height == end
    {
      height := PastHighest(filters.Keys, from);
      forall end | Contiguous(filters.Keys, from, end)
        ensures height == end
      {
        assert end - 1 >= from ==> end - 1 in filters.Keys;
      }
    }

    function FilterHeaderAt(height: int): Option<Hash>
      reads this
    {
      if height in filters then Some(filters[height].filterHeader) else None
    }

    /** Records a match; an address matched in the block before keeps its row. */
    method SaveMatch(m: MatchRow)
      modifies this`matches
      ensures var key := MatchKey(m.height, m.address);
              matches == if key in old(matches) then old(matches) else old(matches)[key := m]
    {
      var key := MatchKey(m.height, m.address);
      if key !in matches {
        matches := matches[key := m];
      }
    }

    /** Adds the row; a row with the same id makes way for it. */
    method SaveTransaction(row: TxRow)
      modifies this`transactions
      ensures transactions == Save(old(transactions), row)
    {
      var rest: seq<TxRow> := [];
      for n := 0 to |transactions|
        invariant transactions == old(transactions)
        invariant rest == Without(transactions[..n], row.tx.id)
      {
        assert transactions[..n + 1][..n] == transactions[..n];
        if transactions[n].tx.id != row.tx.id {
          rest := rest + [transactions[n]];
        }
      }
      assert transactions[..|transactions|] == transactions;
      transactions := rest + [row];
    }

    /** The stored transactions in block order, those of a block as they were stored. */
    function Transactions(): seq<TxRow>
      reads this`transactions
    {
      Sort(ByHeight, transactions)
    }

    /** Stores an unconfirmed transaction; one seen before keeps its row. */
    method SavePending(row: PendingRow)
      modifies this`pending
      ensures (exists n :: 0 <= n < |old(pending)| && old(pending)[n].tx.id == row.tx.id) ==> pending == old(pending)
      ensures (forall n :: 0 <= n < |old(pending)| ==> old(pending)[n].tx.id != row.tx.id) ==> pending == old(pending) + [row]
    {
      for n := 0 to |pending|
        invariant pending == old(pending)
        invariant forall k :: 0 <= k < n ==> pending[k].tx.id != row.tx.id
      {
        if pending[n].tx.id == row.tx.id {
          return;
        }
      }
      pending := pending + [row];
    }

    method DeletePending(id: Hash)
      modifies this`pending
      ensures pending == WithoutPending(old(pending), id)
    {
      var rest: seq<PendingRow> := [];
      for n := 0 to |pending|
        invariant pending == old(pending)
        invariant rest == WithoutPending(pending[..n], id)
      {
        assert pending[..n + 1][..n] == pending[..n];
        if pending[n].tx.id != id {
          rest := rest + [pending[n]];
        }
      }
      assert pending[..|pending|] == pending;
      pending := rest;
    }

    /** Queues a rescan; an address queued before keeps the lower height. */
    method AddRescan(r: Rescan)
      modifies this`rescans
      ensures rescans == Enqueue(old(rescans), r)
    {
      if r.address in rescans {
        rescans := rescans[r.address := Min(rescans[r.address], r.from)];
      } else {
        rescans := rescans[r.address := r.from];
      }
    }

    /** The queued rescans. */
    method Rescans() returns (jobs: seq<Rescan>)
      ensures forall i :: 0 <= i < |jobs| ==> jobs[i].address in rescans && jobs[i].from == rescans[jobs[i].address]
      ensures forall i, j :: 0 <= i < j < |jobs| ==> jobs[i].address != jobs[j].address
      ensures forall a :: a in rescans ==> Rescan(a, rescans[a]) in jobs
    {
      jobs := [];
      var left := rescans.Keys;
      while left != {}
        invariant left <= rescans.Keys
        invariant forall i :: 0 <= i < |jobs| ==> jobs[i].address in rescans && jobs[i].address !in left && jobs[i].from == rescans[jobs[i].address]
        invariant forall i, j :: 0 <= i < j < |jobs| ==> jobs[i].address != jobs[j].address
        invariant forall a :: a in rescans && a !in left ==> Rescan(a, rescans[a]) in jobs
        decreases |left|
      {
        var a := Pick(left);
        jobs := jobs + [Rescan(a, rescans[a])];
        left := left - {a};
      }
    }

    /** Removes a rescan once it is done; one queued from a lower height meanwhile stays. */
    method DeleteRescan(r: Rescan)
      modifies this`rescans
      ensures rescans == Dequeue(old(rescans), r)
    {
      if r.address in rescans && rescans[r.address] >= r.from {
        rescans := rescans - {r.address};
      }
    }
  }
}
