/** Stable sorting by a total preorder, as the sort and slices packages do it. */
module Sorting {

  ghost predicate TotalPreorder<T(!new)>(leq: (T, T) -> bool) {
    && (forall a, b :: leq(a, b) || leq(b, a))
    && (forall a, b, c :: leq(a, b) && leq(b, c) ==> leq(a, c))
  }

  ghost predicate Sorted<T>(leq: (T, T) -> bool, s: seq<T>) {
    forall i, j :: 0 <= i < j < |s| ==> leq(s[i], s[j])
  }

  /** Puts x before the first element it is not above. */
  function Insert<T>(leq: (T, T) -> bool, x: T, s: seq<T>): (r: seq<T>)
    ensures |r| == |s| + 1
    ensures multiset(r) == multiset{x} + multiset(s)
  {
    if s == [] || leq(x, s[0]) then [x] + s
    else
      assert s == [s[0]] + s[1..];
      [s[0]] + Insert(leq, x, s[1..])
  }

  /** The elements of s in order, equal ones in the order they had in s. */
  function Sort<T>(leq: (T, T) -> bool, s: seq<T>): (r: seq<T>)
    ensures |r| == |s|
    ensures multiset(r) == multiset(s)
  {
    if s == [] then []
    else
      assert s == [s[0]] + s[1..];
      Insert(leq, s[0], Sort(leq, s[1..]))
  }

  lemma {:induction false} InsertSorted<T(!new)>(leq: (T, T) -> bool, x: T, s: seq<T>)
    requires TotalPreorder(leq) && Sorted(leq, s)
    ensures Sorted(leq, Insert(leq, x, s))
  {
    if s == [] || leq(x, s[0]) {
    } else {
      InsertSorted(leq, x, s[1..]);
      var r := Insert(leq, x, s[1..]);
      forall j | 0 <= j < |r|
        ensures leq(s[0], r[j])
      {
        assert r[j] in multiset{x} + multiset(s[1..]);
      }
    }
  }

  lemma {:induction false} SortSorted<T(!new)>(leq: (T, T) -> bool, s: seq<T>)
    requires TotalPreorder(leq)
    ensures Sorted(leq, Sort(leq, s))
  {
    if s != [] {
      SortSorted(leq, s[1..]);
      InsertSorted(leq, s[0], Sort(leq, s[1..]));
    }
  }

  /** The elements of s that are neither above nor below x. */
  ghost function Peers<T>(leq: (T, T) -> bool, x: T, s: seq<T>): seq<T> {
    if s == [] then []
    else (if leq(s[0], x) && leq(x, s[0]) then [s[0]] else []) + Peers(leq, x, s[1..])
  }

  lemma {:induction false} InsertStable<T(!new)>(leq: (T, T) -> bool, x: T, y: T, s: seq<T>)
    requires TotalPreorder(leq)
    ensures Peers(leq, y, Insert(leq, x, s)) == Peers(leq, y, [x] + s)
  {
    hide Peers, TotalPreorder;
    if s != [] && !leq(x, s[0]) {
      InsertStable(leq, x, y, s[1..]);
      PeersOfFirst(leq, y, s[0], Insert(leq, x, s[1..]));
      PeersOfFirst(leq, y, x, s);
      PeersOfFirst(leq, y, x, s[1..]);
      PeersOfFirst(leq, y, s[0], s[1..]);
      assert s == [s[0]] + s[1..];
      NotBothPeers(leq, x, y, s[0]);
    }
  }

  lemma NotBothPeers<T(!new)>(leq: (T, T) -> bool, x: T, y: T, z: T)
    requires TotalPreorder(leq) && !leq(x, z)
    ensures !(leq(x, y) && leq(y, x)) || !(leq(z, y) && leq(y, z))
  {
  }

  lemma PeersOfFirst<T(!new)>(leq: (T, T) -> bool, y: T, x: T, s: seq<T>)
    ensures Peers(leq, y, [x] + s) == (if leq(x, y) && leq(y, x) then [x] else []) + Peers(leq, y, s)
  {
    assert ([x] + s)[1..] == s;
  }

  /** Sorting keeps the order of equal elements. */
  lemma {:induction false} SortStable<T(!new)>(leq: (T, T) -> bool, y: T, s: seq<T>)
    requires TotalPreorder(leq)
    ensures Peers(leq, y, Sort(leq, s)) == Peers(leq, y, s)
  {
    if s != [] {
      SortStable(leq, y, s[1..]);
      InsertStable(leq, s[0], y, Sort(leq, s[1..]));
      assert ([s[0]] + Sort(leq, s[1..]))[1..] == Sort(leq, s[1..]);
    }
  }
}
