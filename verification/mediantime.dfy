/**
 Median time past (BIP 113): the middle of the last eleven block times
 (internal/spv/chain.go).
 */
module MedianTimes {
  import opened Basics
  import opened Sorting

  /** How many headers the median is taken over. */
  const MEDIAN_WINDOW := 11

  predicate AtMost(a: int, b: int) { a <= b }

  /** The last times, at most a window of them. */
  function Window(times: seq<int>): (w: seq<int>)
    ensures times != [] ==> w != []
  {
    times[|times| - Min(|times|, MEDIAN_WINDOW)..]
  }

  function Median(times: seq<int>): int
    requires times != []
  {
    Sort(AtMost, Window(times))[|Window(times)| / 2]
  }

  /** Every time after the first is later than the median of those before it. */
  predicate MedianRule(times: seq<int>) {
    forall i :: 1 <= i < |times| ==> times[i] > Median(times[..i])
  }

  /** How many elements are below the bound. */
  ghost function CountBelow(s: seq<int>, bound: int): nat {
    if s == [] then 0 else (if s[0] < bound then 1 else 0) + CountBelow(s[1..], bound)
  }

  lemma {:induction false} CountBelowAppend(a: seq<int>, b: seq<int>, bound: int)
    ensures CountBelow(a + b, bound) == CountBelow(a, bound) + CountBelow(b, bound)
  {
    if a == [] {
      assert a + b == b;
    } else {
      assert (a + b)[1..] == a[1..] + b;
      CountBelowAppend(a[1..], b, bound);
    }
  }

  lemma {:induction false} CountBelowInsert(x: int, s: seq<int>, bound: int)
    ensures CountBelow(Insert(AtMost, x, s), bound) == CountBelow([x] + s, bound)
  {
    var r := Insert(AtMost, x, s);
    assert ([x] + s)[1..] == s;
    if s == [] || AtMost(x, s[0]) {
    } else {
      CountBelowInsert(x, s[1..], bound);
      assert ([x] + s[1..])[1..] == s[1..];
      assert r[1..] == Insert(AtMost, x, s[1..]);
    }
  }

  lemma {:induction false} CountBelowSort(s: seq<int>, bound: int)
    ensures CountBelow(Sort(AtMost, s), bound) == CountBelow(s, bound)
  {
    if s != [] {
      CountBelowSort(s[1..], bound);
      CountBelowInsert(s[0], Sort(AtMost, s[1..]), bound);
      assert ([s[0]] + Sort(AtMost, s[1..]))[1..] == Sort(AtMost, s[1..]);
    }
  }

  /** In a sorted list the elements below the bound are a prefix. */
  lemma {:induction false} SortedCount(s: seq<int>, bound: int, k: nat)
    requires Sorted(AtMost, s) && k < |s|
    ensures s[k] >= bound <==> CountBelow(s, bound) <= k
  {
    if s[0] >= bound {
      NoneBelow(s, bound);
      assert AtMost(s[0], s[k]) || k == 0;
    } else if k == 0 {
      assert CountBelow(s, bound) >= 1;
    } else {
      SortedCount(s[1..], bound, k - 1);
    }
  }

  lemma {:induction false} NoneBelow(s: seq<int>, bound: int)
    requires forall i :: 0 <= i < |s| ==> s[i] >= bound
    ensures CountBelow(s, bound) == 0
  {
    if s != [] {
      NoneBelow(s[1..], bound);
    }
  }

  /** The median is one of the last up to eleven times; at most half of them are
      earlier, and more than half are not later. */
  lemma MedianIsMiddle(times: seq<int>)
    requires times != []
    ensures var w := times[if |times| <= 11 then 0 else |times| - 11..];
            && Median(times) in w
            && CountBelow(w, Median(times)) <= |w| / 2 < CountBelow(w, Median(times) + 1)
  {
    hide CountBelow, Sort;
    MiddleOf(Window(times));
  }

  lemma MiddleOf(w: seq<int>)
    requires w != []
    ensures var m := Sort(AtMost, w)[|w| / 2]; m in w && CountBelow(w, m) <= |w| / 2 < CountBelow(w, m + 1)
  {
    hide *;
    var s, k := Sort(AtMost, w), |w| / 2;
    AtMostPreorder();
    SortSorted(AtMost, w);
    SortedCount(s, s[k], k);
    SortedCount(s, s[k] + 1, k);
    CountBelowSort(w, s[k]);
    CountBelowSort(w, s[k] + 1);
    SameElements(s, w, k);
  }

  lemma SameElements(s: seq<int>, w: seq<int>, k: nat)
    requires multiset(s) == multiset(w) && k < |s|
    ensures s[k] in w
  {
    assert s[k] in multiset(w);
  }

  lemma AtMostPreorder()
    ensures TotalPreorder(AtMost)
  {
  }

  /** The median is at least the bound when at most half the window is below. */
  lemma MedianAtLeast(times: seq<int>, bound: int)
    requires times != []
    ensures Median(times) >= bound <==> CountBelow(Window(times), bound) <= |Window(times)| / 2
  {
    AtMostPreorder();
    SortSorted(AtMost, Window(times));
    CountBelowSort(Window(times), bound);
    SortedCount(Sort(AtMost, Window(times)), bound, |Window(times)| / 2);
  }

  /** A time later than the median moves the median forward or not at all,
      whether the window grows or slides. */
  lemma MedianStep(times: seq<int>, next: int)
    requires times != [] && next > Median(times)
    ensures Median(times + [next]) >= Median(times)
  {
    var m := Median(times);
    var w, w' := Window(times), Window(times + [next]);
    MedianAtLeast(times, m);
    MedianAtLeast(times + [next], m);
    if |times| < MEDIAN_WINDOW {
      assert w' == w + [next];
      CountBelowAppend(w, [next], m);
    } else {
      assert w' == w[1..] + [next];
      CountBelowAppend(w[1..], [next], m);
    }
  }

  /** Along a chain obeying the rule the median never goes back. */
  lemma {:induction false} MedianMonotone(times: seq<int>, i: nat, j: nat)
    requires MedianRule(times) && 1 <= i <= j <= |times|
    ensures Median(times[..i]) <= Median(times[..j])
    decreases j - i
  {
    hide Median, Window;
    if i < j {
      assert times[..i] + [times[i]] == times[..i + 1];
      MedianStep(times[..i], times[i]);
      MedianMonotone(times, i + 1, j);
    }
  }

  lemma MedianRuleExtends(times: seq<int>, next: int)
    requires MedianRule(times) && (times == [] || next > Median(times))
    ensures MedianRule(times + [next])
  {
    var all := times + [next];
    forall i | 1 <= i < |all|
      ensures all[i] > Median(all[..i])
    {
      if i < |times| {
        assert all[..i] == times[..i];
      } else {
        assert all[..i] == times;
      }
    }
  }

  lemma MedianRulePrefix(times: seq<int>, k: nat)
    requires MedianRule(times) && k <= |times|
    ensures MedianRule(times[..k])
  {
    forall i | 1 <= i < k
      ensures times[..k][i] > Median(times[..k][..i])
    {
      assert times[..k][..i] == times[..i];
    }
  }

  lemma TailMultiset(s: seq<int>)
    requires s != []
    ensures multiset(s[1..]) == multiset(s) - multiset{s[0]}
  {
    assert s == [s[0]] + s[1..];
  }

  /** Two sorted permutations of one list are the same list. */
  lemma {:induction false} SortedUnique(a: seq<int>, b: seq<int>)
    requires Sorted(AtMost, a) && Sorted(AtMost, b) && multiset(a) == multiset(b)
    ensures a == b
  {
    assert |a| == |multiset(a)| == |multiset(b)| == |b|;
    if a != [] {
      assert a[0] in multiset(b) && b[0] in multiset(a);
      var i :| 0 <= i < |b| && b[i] == a[0];
      var j :| 0 <= j < |a| && a[j] == b[0];
      assert AtMost(b[0], b[i]) || i == 0;
      assert AtMost(a[0], a[j]) || j == 0;
      TailMultiset(a);
      TailMultiset(b);
      SortedUnique(a[1..], b[1..]);
    }
  }

  /** The median does not depend on the order the window was collected in. */
  lemma MedianOfPermutation(times: seq<int>, collected: seq<int>)
    requires times != [] && multiset(collected) == multiset(Window(times))
    ensures |collected| == |Window(times)|
    ensures Sort(AtMost, collected)[|collected| / 2] == Median(times)
  {
    assert |collected| == |multiset(collected)| == |multiset(Window(times))| == |Window(times)|;
    AtMostPreorder();
    SortSorted(AtMost, collected);
    SortSorted(AtMost, Window(times));
    SortedUnique(Sort(AtMost, collected), Sort(AtMost, Window(times)));
  }

  /** The median is the middle of the times collected from the end, once a
      window of them or all of them are there. */
  lemma MedianOfCollected(times: seq<int>, from: nat, collected: seq<int>)
    requires from < |times| && (from == 0 || |times| - from == MEDIAN_WINDOW)
    requires |times| - from <= MEDIAN_WINDOW
    requires multiset(collected) == multiset(times[from..])
    ensures collected != [] && |Sort(AtMost, collected)| == |collected|
    ensures Sort(AtMost, collected)[|collected| / 2] == Median(times)
  {
    assert times[from..] == Window(times);
    MedianOfPermutation(times, collected);
  }
}
