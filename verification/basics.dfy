/** Vocabulary shared by every module: hashes, optional values and results. */
module Basics {

  /** A 32-byte hash, read as a number; the null hash is 0. */
  type Hash = nat

  const ZERO_HASH: Hash := 0

  type uint32 = n: nat | n < 0x1_0000_0000

  datatype Option<+T> = None | Some(value: T)

  datatype Result<+T, +E> = Ok(value: T) | Err(error: E)

  function Min(a: int, b: int): int { if a <= b then a else b }

  function Max(a: int, b: int): int { if a >= b then a else b }
}

/** Walking finite sets of integers, as the database walks its keys. */
module IntSets {

  lemma Member<T>(s: set<T>) returns (x: T)
    requires s != {}
    ensures x in s
  {
    x :| x in s;
  }

  method Pick<T>(s: set<T>) returns (x: T)
    requires s != {}
    ensures x in s
  {
    x :| x in s;
  }

  lemma {:induction false} Least(s: set<int>) returns (least: int)
    requires s != {}
    ensures least in s && forall h :: h in s ==> least <= h
    decreases |s|
  {
    least := Member(s);
    var rest := s - {least};
    assert forall h :: h in s ==> h == least || h in rest;
    if rest != {} {
      var m := Least(rest);
      least := if least <= m then least else m;
    }
  }

  /** The members of a set in order. */
  method SortedKeys(keys: set<int>) returns (list: seq<int>)
    ensures forall i, j :: 0 <= i < j < |list| ==> list[i] < list[j]
    ensures forall h :: h in list <==> h in keys
    ensures |list| == |keys|
  {
    list := [];
    var left := keys;
    while left != {}
      invariant left <= keys
      invariant forall i, j :: 0 <= i < j < |list| ==> list[i] < list[j]
      invariant forall h :: h in list <==> h in keys && h !in left
      invariant forall i, h :: 0 <= i < |list| && h in left ==> list[i] < h
      invariant |list| + |left| == |keys|
      decreases |left|
    {
      ghost var bound := Least(left);
      var least :| least in left && forall h :: h in left ==> least <= h;
      list := list + [least];
      left := left - {least};
    }
  }

  /** One past the highest number from the start on, or the start. */
  method PastHighest(keys: set<int>, from: int) returns (height: int)
    ensures height >= from
    ensures forall h :: h in keys ==> h < from || h < height
    ensures height > from ==> height - 1 in keys
  {
    height := from;
    var left := keys;
    while left != {}
      invariant left <= keys
      invariant height >= from
      invariant forall h :: h in keys && h !in left ==> h < from || h < height
      invariant height > from ==> height - 1 in keys
      decreases |left|
    {
      var h := Pick(left);
      left := left - {h};
      if h >= height {
        height := h + 1;
      }
    }
  }
}
