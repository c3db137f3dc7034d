/** The heights of a block locator (internal/spv/chain.go). */
module Locators {
  import opened Basics
  import opened Compact

  newtype int32 = x: int | -0x8000_0000 <= x < 0x8000_0000

  /** How far below the tip the k-th entry of a locator lies. */
  function Depth(k: nat): nat {
    if k <= 10 then k else 8 + Pow2(k - 9)
  }

  /** The distance between the k-th entry and the next. */
  function Stride(k: nat): (stride: nat)
    ensures stride >= 1
  {
    if k < 10 then 1 else Pow2(k - 9)
  }

  lemma DepthStep(k: nat)
    ensures Depth(k + 1) == Depth(k) + Stride(k)
  {
    assert Pow2(1) == 2;
    assert Pow2(2) == 4;
  }

  lemma DepthStart()
    ensures Depth(0) == 0
  {
  }

  /** The stride doubles from the eleventh entry on. */
  lemma StrideStep(k: nat)
    ensures Stride(k) == (if k == 0 then 1 else Stride(k - 1)) * (if k >= 10 then 2 else 1)
  {
    assert Pow2(1) == 2;
  }

  lemma {:induction false} DepthIncreases(i: nat, j: nat)
    requires i < j
    ensures Depth(i) < Depth(j)
    decreases j - i
  {
    DepthStep(i);
    if i + 1 < j {
      DepthIncreases(i + 1, j);
    }
  }

  /** The first eleven entries are one apart; from there on each gap is twice the one before. */
  lemma GapsDouble(k: nat)
    ensures k <= 10 ==> Depth(k) == k
    ensures k >= 10 ==> Depth(k + 1) - Depth(k) == 2 * (Depth(k) - Depth(k - 1))
  {
    assert Pow2(1) == 2;
    assert Pow2(2) == 4;
  }

  /** A locator of that many entries for a chain with that tip: every entry
      lies on the chain and the next one would not. */
  predicate IsLocatorLength(tip: nat, length: nat) {
    length > 0 && Depth(length - 1) <= tip < Depth(length)
  }

  /** The heights of a locator start at the tip and strictly decrease. */
  lemma LocatorDecreases(tip: nat, length: nat, i: nat, j: nat)
    requires IsLocatorLength(tip, length) && i < j < length
    ensures tip - Depth(0) == tip
    ensures 0 <= tip - Depth(j) < tip - Depth(i) <= tip
  {
    DepthIncreases(i, j);
    if j < length - 1 {
      DepthIncreases(j, length - 1);
    }
  }

  /** When some entry lies at or below a fork, the highest such entry is at
      most twice as deep as the fork. */
  lemma ForkCovered(tip: nat, length: nat, fork: nat, k: nat)
    requires IsLocatorLength(tip, length) && k < length
    requires Depth(k) >= fork && (k == 0 || Depth(k - 1) < fork)
    ensures Depth(k) <= 2 * fork
  {
    if k > 0 {
      DepthStep(k - 1);
      if k >= 12 {
        assert Pow2(k - 9) == 2 * Pow2(k - 10);
      } else {
        assert Pow2(1) == 2;
        assert Pow2(2) == 4;
      }
    }
  }

  /** A long locator needs an exponentially high chain. */
  lemma LengthBound(tip: nat, length: nat)
    requires IsLocatorLength(tip, length) && length > 11
    ensures 8 + Pow2(length - 10) <= tip
  {
  }

  /** The strides of a locator on a chain that an int32 can number stay far
      from its limits. */
  lemma StrideFits(tip: nat, k: nat)
    requires Depth(k) <= tip < 0x8000_0000
    ensures Stride(k) <= Max(tip - 8, 1)
  {
  }
}
