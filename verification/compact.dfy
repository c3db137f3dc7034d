/**
 The compact "bits" encoding of proof-of-work targets and the difficulty
 retarget computed with it (internal/spv/chain.go).
 */
module Compact {
  import opened Basics

  datatype BitsError = NegativeTarget | ZeroExponent

  /** The expected time of a difficulty period, in seconds. */
  const RETARGET_TIMESPAN := 2016 * 10 * 60

  // ---------------------------------------------------------------- powers

  function Pow2(n: nat): (p: nat)
    ensures p >= 1
  {
    if n == 0 then 1 else 2 * Pow2(n - 1)
  }

  function Pow256(n: nat): (p: nat)
    ensures p >= 1
  {
    if n == 0 then 1 else 256 * Pow256(n - 1)
  }

  lemma {:induction false} Pow2Of8(n: nat)
    ensures Pow2(8 * n) == Pow256(n)
  {
    if n > 0 {
      Pow2Of8(n - 1);
      assert Pow2(8 * n) == 2 * Pow2(8 * n - 1) == 4 * Pow2(8 * n - 2) == 8 * Pow2(8 * n - 3) == 16 * Pow2(8 * n - 4);
      assert Pow2(8 * n - 4) == 2 * Pow2(8 * n - 5) == 4 * Pow2(8 * n - 6) == 8 * Pow2(8 * n - 7) == 16 * Pow2(8 * n - 8);
    }
  }

  lemma {:induction false} Pow2Monotone(a: nat, b: nat)
    requires a <= b
    ensures Pow2(a) <= Pow2(b)
    decreases b - a
  {
    if a < b {
      Pow2Monotone(a + 1, b);
    }
  }

  lemma {:induction false} Pow256Monotone(a: nat, b: nat)
    requires a <= b
    ensures Pow256(a) <= Pow256(b)
    decreases b - a
  {
    if a < b {
      Pow256Monotone(a + 1, b);
    }
  }

  lemma {:induction false} Pow256Add(a: nat, b: nat)
    ensures Pow256(a + b) == Pow256(a) * Pow256(b)
  {
    if a > 0 {
      Pow256Add(a - 1, b);
      assert a + b - 1 == (a - 1) + b;
      calc {
        Pow256(a + b);
        256 * Pow256(a + b - 1);
        256 * (Pow256(a - 1) * Pow256(b));
        (256 * Pow256(a - 1)) * Pow256(b);
        Pow256(a) * Pow256(b);
      }
    }
  }

  /** A right shift by whole bytes. */
  function ShiftDown(n: nat, bytes: nat): nat {
    var p := Pow256(bytes);
    DivNonNegative(n, p);
    n / p
  }

  lemma DivNonNegative(n: nat, p: nat)
    requires p > 0
    ensures n / p >= 0
  {
  }

  lemma MulMonotone(a: nat, b: nat, p: nat)
    requires a <= b
    ensures a * p <= b * p
  {
  }

  /** The number of bits of n, 0 for 0: big.Int's BitLen. */
  function BitLen(n: nat): nat {
    if n == 0 then 0 else 1 + BitLen(n / 2)
  }

  lemma {:induction false} BitLenBounds(n: nat)
    requires n > 0
    ensures BitLen(n) >= 1
    ensures Pow2(BitLen(n) - 1) <= n < Pow2(BitLen(n))
  {
    if n >= 2 {
      BitLenBounds(n / 2);
    }
  }

  function ByteLen(n: nat): nat {
    (BitLen(n) + 7) / 8
  }

  lemma ByteLenBounds(n: nat)
    requires n > 0
    ensures ByteLen(n) >= 1
    ensures Pow256(ByteLen(n) - 1) <= n < Pow256(ByteLen(n))
  {
    BitLenBounds(n);
    var k := ByteLen(n);
    Pow2Of8(k - 1);
    Pow2Of8(k);
    Pow2Monotone(8 * (k - 1), BitLen(n) - 1);
    Pow2Monotone(BitLen(n), 8 * k);
  }

  lemma ByteLenUnique(n: nat, k: nat)
    requires k >= 1 && Pow256(k - 1) <= n < Pow256(k)
    ensures ByteLen(n) == k
  {
    ByteLenBounds(n);
    if ByteLen(n) < k {
      Pow256Monotone(ByteLen(n), k - 1);
    } else if ByteLen(n) > k {
      Pow256Monotone(k, ByteLen(n) - 1);
    }
  }

  // ------------------------------------------------- decoding and encoding

  function Exponent(compact: uint32): nat { compact / 0x100_0000 }

  function Mantissa(compact: uint32): nat { compact % 0x80_0000 }

  predicate SignBit(compact: uint32) { compact / 0x80_0000 % 2 == 1 }

  /** The mantissa shifted by whole bytes, the sign left aside. */
  function Magnitude(compact: uint32): nat {
    var e := Exponent(compact);
    if e <= 3 then ShiftDown(Mantissa(compact), 3 - e) else Mantissa(compact) * Pow256(e - 3)
  }

  /** The target a word encodes. */
  function Target(compact: uint32): Result<nat, BitsError> {
    if SignBit(compact) && Magnitude(compact) > 0 then Err(NegativeTarget)
    else if Mantissa(compact) != 0 && Exponent(compact) == 0 then Err(ZeroExponent)
    else Ok(Magnitude(compact))
  }

  method CompactToBig(compact: uint32) returns (r: Result<nat, BitsError>)
    ensures r == Target(compact)
  {
    var exponent := compact / 0x100_0000;
    var mantissa: int := compact % 0x80_0000;
    var negative := compact / 0x80_0000 % 2 == 1;
    if exponent <= 3 {
      mantissa := ShiftDown(mantissa, 3 - exponent);
    } else {
      mantissa := mantissa * Pow256(exponent - 3);
    }
    if negative {
      mantissa := -mantissa;
    }
    if mantissa < 0 {
      return Err(NegativeTarget);
    }
    if compact % 0x80_0000 != 0 && exponent == 0 {
      return Err(ZeroExponent);
    }
    return Ok(mantissa);
  }

  /** A word is read as three bytes of mantissa, the top bit being a sign, and a
      byte of exponent: the mantissa times 256 to the power three less than the
      exponent, rounded down. It is refused when negative, or when the exponent
      is zero and the mantissa is not. */
  lemma DecodedIs(w: uint32)
    ensures var e, m, negative := w / 0x100_0000, w % 0x80_0000, w % 0x100_0000 >= 0x80_0000;
            && (e >= 3 ==> (Target(w).Ok? <==> !negative || m == 0) && (Target(w).Ok? ==> Target(w).value == m * Pow256(e - 3)))
            && (e < 3 ==> (Target(w).Ok? <==> (!negative || m < Pow256(3 - e)) && (e == 0 ==> m == 0)))
            && (e < 3 && Target(w).Ok? ==> Target(w).value * Pow256(3 - e) <= m < (Target(w).value + 1) * Pow256(3 - e))
  {
    var e, m := w / 0x100_0000, w % 0x80_0000;
    SignIs(w);
    MagnitudeIs(w);
    hide Magnitude, SignBit, Pow256;
    if e < 3 {
      DividesDown(m, Pow256(3 - e));
    } else if m > 0 {
      Positive(m, Pow256(e - 3));
    }
  }

  lemma SignIs(w: uint32)
    ensures SignBit(w) <==> w % 0x100_0000 >= 0x80_0000
  {
  }

  lemma MagnitudeIs(w: uint32)
    ensures Exponent(w) < 3 ==> Magnitude(w) == Mantissa(w) / Pow256(3 - Exponent(w))
    ensures Exponent(w) >= 3 ==> Magnitude(w) == Mantissa(w) * Pow256(Exponent(w) - 3)
  {
    assert Pow256(0) == 1;
  }

  lemma Positive(a: nat, b: nat)
    requires a > 0 && b > 0
    ensures a * b > 0
  {
  }

  lemma DividesDown(m: nat, p: nat)
    requires p > 0
    ensures m / p * p <= m < (m / p + 1) * p
    ensures m / p == 0 <==> m < p
  {
    var q, r := m / p, m % p;
    assert m == q * p + r && 0 <= r < p;
    assert (q + 1) * p == q * p + p;
    if q >= 1 {
      assert q * p >= p;
    } else {
      assert q * p == 0;
    }
  }

  /** Packs an exponent and a mantissa; the exponent wraps in the top byte. */
  function Word(exponent: nat, mantissa: nat): uint32 {
    var e := exponent % 256;
    var m := mantissa % 0x80_0000;
    assert e <= 255 && m < 0x80_0000;
    e * 0x100_0000 + m
  }

  /** The word a target is encoded as. */
  function Bits(target: int): uint32 {
    if target <= 0 then 0 else
    var length := ByteLen(target);
    var e0 := if length > 3 then length else 3;
    var m0 := if length > 3 then ShiftDown(target, length - 3) else target;
    var e := if BitLen(m0) > 23 then e0 + 1 else e0;
    var m := if BitLen(m0) > 23 then m0 / 256 else m0;
    Word(e, m)
  }

  method BigToCompact(target: int) returns (bits: uint32)
    ensures bits == Bits(target)
  {
    if target <= 0 {
      return 0;
    }
    var exponent := (BitLen(target) + 7) / 8;
    var mantissa: nat := target;
    if exponent > 3 {
      mantissa := ShiftDown(mantissa, exponent - 3);
    } else {
      exponent := 3;
    }
    if BitLen(mantissa) > 23 {
      mantissa := mantissa / 256;
      exponent := exponent + 1;
    }
    return Word(exponent, mantissa);
  }

  /** The words the encoder produces for positive targets: no sign, the mantissa normalised. */
  predicate Canonical(compact: uint32) {
    && !SignBit(compact)
    && (|| (Exponent(compact) == 3 && Mantissa(compact) > 0)
        || (Exponent(compact) >= 4 && Mantissa(compact) >= 0x8000))
  }

  lemma WordParts(e: nat, m: nat)
    requires e < 256 && m < 0x80_0000
    ensures Exponent(Word(e, m)) == e
    ensures Mantissa(Word(e, m)) == m
    ensures !SignBit(Word(e, m))
  {
    var c := Word(e, m);
    assert c == e * 0x100_0000 + m;
    assert c / 0x80_0000 == 2 * e;
  }

  lemma WordValue(c: uint32)
    requires !SignBit(c)
    ensures c == Exponent(c) * 0x100_0000 + Mantissa(c)
    ensures Exponent(c) < 256 && Mantissa(c) < 0x80_0000
  {
    var q := c / 0x80_0000;
    assert q == 2 * (c / 0x100_0000);
    assert c == q * 0x80_0000 + Mantissa(c);
  }

  lemma WordOfParts(c: uint32)
    requires !SignBit(c)
    ensures Exponent(c) < 256
    ensures c == Word(Exponent(c), Mantissa(c))
  {
    WordValue(c);
  }

  // -------------------------------------------------- division by a power

  lemma MulDistributes(a: nat, b: nat, p: nat)
    ensures (a + b) * p == a * p + b * p
  {
  }

  lemma MulAssociates(a: nat, b: nat, p: nat)
    ensures a * b * p == a * (b * p)
  {
  }

  lemma DivBounds(t: nat, p: nat, lo: nat, hi: nat)
    requires p > 0 && lo * p <= t < hi * p
    ensures lo <= t / p < hi
  {
    var q := t / p;
    assert t == q * p + t % p;
    MulDistributes(q, 1, p);
    if q < lo {
      MulMonotone(q + 1, lo, p);
    } else if q >= hi {
      MulMonotone(hi, q, p);
    }
  }

  lemma DivUnique(t: nat, d: nat, q: nat, r: nat)
    requires d > 0 && t == q * d + r && r < d
    ensures t / d == q
  {
    MulDistributes(q, 1, d);
    DivBounds(t, d, q, q + 1);
  }

  lemma DivDiv(t: nat, p: nat, k: nat)
    requires p > 0 && k > 0
    ensures k * p > 0
    ensures t / p / k == t / (k * p)
  {
    var q := t / p;
    var r, s := q / k, q % k;
    assert t == q * p + t % p;
    assert q == r * k + s;
    MulDistributes(r * k, s, p);
    MulAssociates(r, k, p);
    MulDistributes(s, 1, p);
    MulMonotone(s + 1, k, p);
    MulMonotone(1, k, p);
    DivUnique(t, k * p, r, s * p + t % p);
  }

  // ------------------------------------------------------- encoding theorems

  /** A proof-of-work target: a positive number of at most 256 bits. */
  predicate IsTarget(t: int) { t > 0 && BitLen(t) <= 256 }

  lemma TargetsClosed(t: nat, limit: nat)
    requires 0 < t <= limit && IsTarget(limit)
    ensures IsTarget(t)
  {
    BitLenBounds(t);
    BitLenBounds(limit);
    if BitLen(t) > BitLen(limit) {
      Pow2Monotone(BitLen(limit), BitLen(t) - 1);
    }
  }

  /** The exponent of the encoded target fits its byte. */
  predicate Encodable(t: int) {
    && t > 0
    && ByteLen(t) <= 255
    && (ByteLen(t) == 255 ==> BitLen(ShiftDown(t, ByteLen(t) - 3)) <= 23)
  }

  lemma TargetEncodable(t: nat)
    requires IsTarget(t)
    ensures Encodable(t)
  {
    ByteLenBounds(t);
  }

  lemma Pow256Of3()
    ensures Pow256(3) == 0x100_0000
  {
    assert Pow256(1) == 256;
    assert Pow256(2) == 65536;
  }

  lemma PowersOf2()
    ensures Pow2(23) == 0x80_0000
  {
    assert Pow2(4) == 16;
    assert Pow2(8) == 256;
    assert Pow2(12) == 4096;
    assert Pow2(16) == 65536;
    assert Pow2(20) == 0x10_0000;
  }

  /** The unit of an encoded target: what one step of the mantissa is worth. */
  function Unit(c: uint32): nat
    requires Exponent(c) >= 3
  {
    Pow256(Exponent(c) - 3)
  }

  /** The shape of an encoded target: a canonical word holding the target
      rounded down to a multiple of its unit. */
  lemma BitsShape(t: nat)
    requires Encodable(t)
    ensures Canonical(Bits(t))
    ensures Mantissa(Bits(t)) == t / Unit(Bits(t))
    ensures Magnitude(Bits(t)) == Mantissa(Bits(t)) * Unit(Bits(t))
  {
    ByteLenBounds(t);
    var length := ByteLen(t);
    if length <= 3 {
      ShortTarget(t, length);
      ShapeStep(t, 3, t);
    } else {
      TopBytes(t, length);
      ShapeStep(t, length, ShiftDown(t, length - 3));
    }
  }

  lemma ShortTarget(t: nat, length: nat)
    requires length <= 3 && t < Pow256(length)
    ensures t < 0x100_0000 && ShiftDown(t, 0) == t
  {
    Pow256Monotone(length, 3);
    Pow256Of3();
    assert Pow256(0) == 1;
  }

  /** The three leading bytes of a number of at least four. */
  lemma TopBytes(t: nat, length: nat)
    requires length > 3
    requires Pow256(length - 1) <= t < Pow256(length)
    ensures 0x1_0000 <= ShiftDown(t, length - 3) < 0x100_0000
  {
    var p := Pow256(length - 3);
    assert Pow256(length - 2) == 256 * p;
    assert Pow256(length - 1) == 65536 * p;
    assert Pow256(length) == 0x100_0000 * p;
    DivBounds(t, p, 0x1_0000, 0x100_0000);
  }

  /** The normalising step of the encoder: a mantissa reaching the sign bit
      moves down a byte. */
  lemma ShapeStep(t: nat, e0: nat, m0: nat)
    requires 3 <= e0 <= 255 && t > 0
    requires m0 == ShiftDown(t, e0 - 3) && 0 < m0 < 0x100_0000
    requires e0 == 255 ==> BitLen(m0) <= 23
    requires e0 >= 4 ==> m0 >= 0x1_0000
    ensures var e := if BitLen(m0) > 23 then e0 + 1 else e0;
            var m := if BitLen(m0) > 23 then m0 / 256 else m0;
            var c := Word(e, m);
            && Canonical(c) && Exponent(c) == e && Mantissa(c) == m
            && m == t / Unit(c)
            && Magnitude(c) == m * Unit(c)
  {
    hide Word, Canonical, Magnitude, Exponent, Mantissa;
    BitLenBounds(m0);
    PowersOf2();
    if BitLen(m0) > 23 {
      Pow2Monotone(23, BitLen(m0) - 1);
      DivDiv(t, Pow256(e0 - 3), 256);
      ShapeOf(t, e0 + 1, m0 / 256);
    } else {
      Pow2Monotone(BitLen(m0), 23);
      ShapeOf(t, e0, m0);
    }
  }

  /** A word made of an exponent and a normalised mantissa has these parts. */
  lemma ShapeOf(t: nat, e: nat, m: nat)
    requires 3 <= e <= 255 && 0 < m < 0x80_0000 && (e >= 4 ==> m >= 0x8000)
    requires m == t / Pow256(e - 3)
    ensures var c := Word(e, m);
            && Canonical(c) && Exponent(c) == e && Mantissa(c) == m
            && m == t / Unit(c)
            && Magnitude(c) == m * Unit(c)
  {
    hide Word, Exponent, Mantissa;
    WordParts(e, m);
    assert Pow256(0) == 1;
  }

  /** Canonical words are ordered as their targets. */
  lemma CanonicalOrder(a: uint32, b: uint32)
    requires Canonical(a) && Canonical(b)
    ensures a <= b <==> Magnitude(a) <= Magnitude(b)
    ensures a == b <==> Magnitude(a) == Magnitude(b)
  {
    CanonicalMagnitude(a);
    CanonicalMagnitude(b);
    if a < b {
      CanonicalBelow(a, b);
    } else if b < a {
      CanonicalBelow(b, a);
    }
  }

  lemma CanonicalMagnitude(c: uint32)
    requires Canonical(c)
    ensures Magnitude(c) == Mantissa(c) * Unit(c) > 0
    ensures Target(c) == Ok(Magnitude(c))
  {
    assert Pow256(0) == 1;
    MulMonotone(1, Mantissa(c), Unit(c));
  }

  lemma CanonicalBelow(a: uint32, b: uint32)
    requires Canonical(a) && Canonical(b) && a < b
    ensures Magnitude(a) < Magnitude(b)
  {
    CanonicalMagnitude(a);
    CanonicalMagnitude(b);
    WordOrder(a, b);
    ScaledBelow(Mantissa(a), Exponent(a), Mantissa(b), Exponent(b));
  }

  lemma WordOrder(a: uint32, b: uint32)
    requires !SignBit(a) && !SignBit(b) && a < b
    ensures Exponent(a) < Exponent(b) || (Exponent(a) == Exponent(b) && Mantissa(a) < Mantissa(b))
  {
    hide *;
    WordValue(a);
    WordValue(b);
  }

  lemma ScaledBelow(ma: nat, ea: nat, mb: nat, eb: nat)
    requires ea >= 3 && ma < 0x80_0000
    requires (ea < eb && mb >= 0x8000) || (ea == eb && ma < mb)
    ensures ma * Pow256(ea - 3) < mb * Pow256(eb - 3)
  {
    if ea == eb {
      MulMonotone(ma + 1, mb, Pow256(ea - 3));
      MulDistributes(ma, 1, Pow256(ea - 3));
    } else {
      UnitGap(ma, ea, eb);
      MulMonotone(0x8000, mb, Pow256(eb - 3));
    }
  }

  /** A mantissa of a smaller exponent stays below the least normalised one. */
  lemma UnitGap(m: nat, e: nat, e': nat)
    requires 3 <= e < e' && m < 0x80_0000
    ensures m * Pow256(e - 3) < 0x8000 * Pow256(e' - 3)
  {
    var u := Pow256(e - 3);
    Pow256Monotone(e - 2, e' - 3);
    assert Pow256(e - 2) == 256 * u;
    MulMonotone(m + 1, 0x80_0000, u);
    MulDistributes(m, 1, u);
  }

  lemma FloorError(t: nat, m: nat, u: nat)
    requires u > 0 && m == t / u && t > 0
    requires u == 1 || m >= 0x8000
    ensures m * u <= t
    ensures (t - m * u) * 0x8000 < t
  {
    assert t == m * u + t % u;
    if u > 1 {
      MulMonotone(0x8000, m, u);
    }
  }

  /** What a target of at least one unit is rounded down to. */
  lemma EncodedTarget(t: nat)
    requires IsTarget(t)
    ensures Canonical(Bits(t))
    ensures Target(Bits(t)) == Ok(Magnitude(Bits(t)))
    ensures Mantissa(Bits(t)) == t / Unit(Bits(t))
    ensures Magnitude(Bits(t)) == t / Unit(Bits(t)) * Unit(Bits(t))
  {
    hide Bits;
    TargetEncodable(t);
    BitsShape(t);
    CanonicalMagnitude(Bits(t));
  }

  /** Encoding rounds a target down to a target that a word encodes, losing
      less than its 2^-15th part. */
  lemma EncodingRoundsDown(t: nat)
    requires IsTarget(t)
    ensures Target(Bits(t)) == Ok(Magnitude(Bits(t)))
    ensures Magnitude(Bits(t)) <= t
    ensures (t - Magnitude(Bits(t))) * 0x8000 < t
  {
    EncodedTarget(t);
    var c := Bits(t);
    assert Exponent(c) == 3 ==> Unit(c) == 1;
    FloorError(t, Mantissa(c), Unit(c));
  }

  /** No word encodes a target between the rounded one and the original. */
  lemma EncodingIsLargest(t: nat, w: uint32)
    requires IsTarget(t)
    requires Target(w).Ok? && Target(w).value <= t
    ensures Target(w).value <= Magnitude(Bits(t))
  {
    EncodedTarget(t);
    FloorIsLargest(t, Bits(t), w);
  }

  lemma FloorIsLargest(t: nat, c: uint32, w: uint32)
    requires Canonical(c) && Mantissa(c) == t / Unit(c)
    requires Magnitude(c) == Mantissa(c) * Unit(c)
    requires Magnitude(w) <= t
    ensures Magnitude(w) <= Magnitude(c)
  {
    hide Pow256, ShiftDown, Target;
    if Exponent(w) < 3 {
      assert Magnitude(w) == ShiftDown(Mantissa(w), 3 - Exponent(w));
      ShiftShrinks(Mantissa(w), 3 - Exponent(w));
      SmallMantissa(Mantissa(w), c, t);
    } else {
      MagnitudeScaled(w);
      if Exponent(c) <= Exponent(w) {
        var j := Exponent(w) - Exponent(c);
        Pow256Add(j, Exponent(c) - 3);
        MulAssociates(Mantissa(w), Pow256(j), Unit(c));
        MultipleBelow(Mantissa(w) * Pow256(j), Unit(c), t);
      } else {
        ScaledBelow(Mantissa(w), Exponent(w), Mantissa(c), Exponent(c));
      }
    }
  }

  lemma MagnitudeScaled(w: uint32)
    requires Exponent(w) >= 3
    ensures Magnitude(w) == Mantissa(w) * Pow256(Exponent(w) - 3)
  {
    assert Pow256(0) == 1;
  }

  /** A multiple of the unit below t is below t rounded down to the unit. */
  lemma MultipleBelow(n: nat, u: nat, t: nat)
    requires u > 0 && n * u <= t
    ensures n * u <= t / u * u
  {
    var q := t / u;
    assert t == q * u + t % u;
    MulDistributes(q, 1, u);
    if q < n {
      MulMonotone(q + 1, n, u);
    } else {
      MulMonotone(n, q, u);
    }
  }

  lemma ShiftShrinks(n: nat, bytes: nat)
    ensures ShiftDown(n, bytes) <= n
  {
    DivShrinks(n, Pow256(bytes));
  }

  lemma DivShrinks(n: nat, p: nat)
    requires p > 0
    ensures n / p <= n
  {
    var q := n / p;
    assert n == p * q + n % p;
    MulMonotone(1, p, q);
  }

  lemma SmallMantissa(n: nat, c: uint32, t: nat)
    requires n < 0x80_0000 && Canonical(c) && Mantissa(c) == t / Unit(c)
    ensures Exponent(c) > 3 ==> n < Magnitude(c)
    ensures Exponent(c) == 3 ==> Magnitude(c) == t
  {
    CanonicalMagnitude(c);
    assert Pow256(0) == 1;
    if Exponent(c) > 3 {
      UnitGap(n, 3, Exponent(c));
      MulMonotone(0x8000, Mantissa(c), Unit(c));
    }
  }

  /** A larger target is never encoded as a smaller word. */
  lemma EncodingMonotone(a: nat, b: nat)
    requires IsTarget(a) && IsTarget(b) && a <= b
    ensures Bits(a) <= Bits(b)
    ensures Magnitude(Bits(a)) <= Magnitude(Bits(b))
  {
    EncodingRoundsDown(a);
    EncodingIsLargest(b, Bits(a));
    TargetEncodable(a);
    TargetEncodable(b);
    BitsShape(a);
    BitsShape(b);
    CanonicalOrder(Bits(a), Bits(b));
  }

  /** A canonical word is what its own target is encoded as. */
  lemma CanonicalRoundTrip(w: uint32)
    requires Canonical(w)
    ensures Encodable(Magnitude(w))
    ensures Bits(Magnitude(w)) == w
  {
    CanonicalMagnitude(w);
    WordOfParts(w);
    var e, m := Exponent(w), Mantissa(w);
    MantissaBits(m);
    if e == 3 {
      assert Unit(w) == 1;
      EncodeShort(m);
    } else if m >= 0x1_0000 {
      EncodeLong(m, e);
    } else {
      EncodeCarry(m, e);
    }
  }

  lemma MantissaBits(m: nat)
    requires 0 < m
    ensures m < 0x80_0000 <==> BitLen(m) <= 23
  {
    BitLenBounds(m);
    PowersOf2();
    if BitLen(m) > 23 {
      Pow2Monotone(23, BitLen(m) - 1);
    } else {
      Pow2Monotone(BitLen(m), 23);
    }
  }

  lemma EncodeShort(m: nat)
    requires 0 < m < 0x80_0000
    ensures Encodable(m) && Bits(m) == Word(3, m)
  {
    ByteLenBounds(m);
    Pow256Of3();
    MantissaBits(m);
    if ByteLen(m) > 3 {
      Pow256Monotone(3, ByteLen(m) - 1);
    }
  }

  lemma EncodeLong(m: nat, e: nat)
    requires 4 <= e <= 255 && 0x1_0000 <= m < 0x80_0000
    ensures Encodable(m * Pow256(e - 3)) && Bits(m * Pow256(e - 3)) == Word(e, m)
  {
    var u := Pow256(e - 3);
    LeadingBytes(m, u, e);
    MulMonotone(1, m, u);
    DivUnique(m * u, u, m, 0);
    MantissaBits(m);
  }

  /** A target whose leading three bytes reach the sign bit. */
  lemma Carried(t: nat, length: nat, top: nat)
    requires t > 0 && ByteLen(t) == length && 3 <= length < 255 && BitLen(top) > 23
    requires if length == 3 then top == t else ShiftDown(t, length - 3) == top
    ensures Encodable(t) && Bits(t) == Word(length + 1, top / 256)
  {
    hide BitLen, ByteLen, ShiftDown, Word;
  }

  lemma EncodeCarry(m: nat, e: nat)
    requires 4 <= e <= 255 && 0x8000 <= m < 0x1_0000
    ensures Encodable(m * Pow256(e - 3)) && Bits(m * Pow256(e - 3)) == Word(e, m)
  {
    hide Bits, Encodable, BitLen, ByteLen, Word;
    var u := Pow256(e - 4);
    assert Pow256(e - 3) == 256 * u;
    MulAssociates(m, 256, u);
    LeadingBytes(m * 256, u, e - 1);
    MulMonotone(1, m * 256, u);
    DivUnique(m * 256 * u, u, m * 256, 0);
    MantissaBits(m * 256);
    if e == 4 {
      assert u == 1;
    }
    Carried(m * 256 * u, e - 1, m * 256);
  }

  lemma LeadingBytes(m: nat, u: nat, e: nat)
    requires e >= 3 && u == Pow256(e - 3) && 0x1_0000 <= m < 0x100_0000
    ensures ByteLen(m * u) == e
  {
    assert Pow256(e - 2) == 256 * u;
    assert Pow256(e - 1) == 0x1_0000 * u;
    assert Pow256(e) == 0x100_0000 * u;
    MulMonotone(0x1_0000, m, u);
    MulMonotone(m + 1, 0x100_0000, u);
    MulDistributes(m, 1, u);
    ByteLenUnique(m * u, e);
  }

  lemma ScaledLength(t: nat, k: nat)
    requires 0 < t < 0x80_0000 * Pow256(k)
    ensures ByteLen(t) <= k + 3
    ensures ByteLen(t) == k + 3 ==> BitLen(ShiftDown(t, k)) <= 23
  {
    var u := Pow256(k);
    ByteLenBounds(t);
    assert Pow256(k + 1) == 256 * u;
    assert Pow256(k + 2) == 0x1_0000 * u;
    assert Pow256(k + 3) == 0x100_0000 * u;
    if ByteLen(t) > k + 3 {
      Pow256Monotone(k + 3, ByteLen(t) - 1);
    } else if ByteLen(t) == k + 3 {
      DivBounds(t, u, 0x1_0000, 0x80_0000);
      MantissaBits(ShiftDown(t, k));
    }
  }

  /** Every target a word encodes can be encoded. */
  lemma WordEncodable(w: uint32)
    requires Magnitude(w) > 0
    ensures Encodable(Magnitude(w))
  {
    var e, m := Exponent(w), Mantissa(w);
    if e < 3 {
      ShiftShrinks(m, 3 - e);
      ScaledLength(Magnitude(w), 0);
    } else {
      MagnitudeScaled(w);
      MulMonotone(m + 1, 0x80_0000, Pow256(e - 3));
      MulDistributes(m, 1, Pow256(e - 3));
      ScaledLength(Magnitude(w), e - 3);
    }
  }

  /** The words naming a target that survive a decoding and an encoding are
      the canonical ones and the zero word, and no others. */
  lemma RoundTripExactly(w: uint32)
    requires Target(w).Ok?
    ensures Bits(Target(w).value) == w <==> w == 0 || Canonical(w)
  {
    var t := Target(w).value;
    if t > 0 {
      WordEncodable(w);
      BitsShape(t);
    }
    if Canonical(w) {
      CanonicalRoundTrip(w);
    }
  }

  /** Encoding what an encoded target decodes to changes nothing. */
  lemma EncodingIdempotent(t: nat)
    requires IsTarget(t)
    ensures Bits(Magnitude(Bits(t))) == Bits(t)
  {
    TargetEncodable(t);
    BitsShape(t);
    CanonicalRoundTrip(Bits(t));
  }

  // -------------------------------------------------------------- retarget

  /** The timespan a retarget counts with: at least a quarter of the intended
      one and at most four times it. */
  function ClampedTimespan(first: int, last: int): (actual: nat)
    ensures RETARGET_TIMESPAN / 4 <= actual <= RETARGET_TIMESPAN * 4
  {
    Min(Max(last - first, RETARGET_TIMESPAN / 4), RETARGET_TIMESPAN * 4)
  }

  /** The old target scaled by the time taken, capped by the proof-of-work limit. */
  function ScaledTarget(prior: nat, actual: nat, powLimit: nat): nat {
    Min(prior * actual / RETARGET_TIMESPAN, powLimit)
  }

  function NextBits(first: int, last: int, oldBits: uint32, powLimit: nat): Result<uint32, BitsError> {
    match Target(oldBits)
    case Err(e) => Err(e)
    case Ok(prior) => Ok(Bits(ScaledTarget(prior, ClampedTimespan(first, last), powLimit)))
  }

  method NextRetargetBits(first: int, last: int, oldBits: uint32, powLimit: nat)
    returns (r: Result<uint32, BitsError>)
    ensures r == NextBits(first, last, oldBits, powLimit)
  {
    hide Target, Bits;
    var actual := last - first;
    if actual < RETARGET_TIMESPAN / 4 {
      actual := RETARGET_TIMESPAN / 4;
    }
    if actual > RETARGET_TIMESPAN * 4 {
      actual := RETARGET_TIMESPAN * 4;
    }
    var decoded := CompactToBig(oldBits);
    if decoded.Err? {
      return Err(decoded.error);
    }
    var target := decoded.value;
    target := target * actual;
    target := target / RETARGET_TIMESPAN;
    if target > powLimit {
      target := powLimit;
    }
    var bits := BigToCompact(target);
    return Ok(bits);
  }

  lemma ScaledBounds(prior: nat, actual: nat, powLimit: nat)
    requires RETARGET_TIMESPAN / 4 <= actual <= RETARGET_TIMESPAN * 4
    ensures ScaledTarget(prior, actual, powLimit) <= Min(powLimit, 4 * prior)
    ensures ScaledTarget(prior, actual, powLimit) >= Min(powLimit, prior / 4)
  {
    MulMonotone(RETARGET_TIMESPAN / 4, actual, prior);
    MulMonotone(actual, RETARGET_TIMESPAN * 4, prior);
    ScaledShare(prior, prior * actual);
  }

  lemma ScaledShare(prior: nat, product: nat)
    requires (RETARGET_TIMESPAN / 4) * prior <= product <= (RETARGET_TIMESPAN * 4) * prior
    ensures prior / 4 <= product / RETARGET_TIMESPAN <= 4 * prior
  {
  }

  lemma ScaledMonotone(prior: nat, a: nat, b: nat, powLimit: nat)
    requires a <= b
    ensures ScaledTarget(prior, a, powLimit) <= ScaledTarget(prior, b, powLimit)
  {
    MulMonotone(a, b, prior);
  }

  /** A retargeted difficulty decodes to at most the proof-of-work limit and
      four times the old target, and to at least the lesser of the limit and a
      quarter of the old target but for the 2^-15th part that encoding may lose;
      its bits encode themselves. */
  lemma RetargetBounds(first: int, last: int, oldBits: uint32, powLimit: nat)
    requires Target(oldBits).Ok? && IsTarget(powLimit)
    ensures var prior := Target(oldBits).value;
            var bits := NextBits(first, last, oldBits, powLimit).value;
            && Target(bits).Ok?
            && Target(bits).value <= Min(powLimit, 4 * prior)
            && Target(bits).value * 0x8000 >= Min(powLimit, prior / 4) * 0x7fff
            && Bits(Target(bits).value) == bits
  {
    var prior := Target(oldBits).value;
    var scaled := ScaledTarget(prior, ClampedTimespan(first, last), powLimit);
    ScaledBounds(prior, ClampedTimespan(first, last), powLimit);
    if scaled == 0 {
      assert Bits(0) == 0;
    } else {
      TargetsClosed(scaled, powLimit);
      EncodingRoundsDown(scaled);
      EncodingIdempotent(scaled);
    }
  }

  /** A period that took longer is never followed by a smaller target. */
  lemma RetargetMonotone(first: int, last: int, last': int, oldBits: uint32, powLimit: nat)
    requires Target(oldBits).Ok? && IsTarget(powLimit) && last <= last'
    ensures var bits := NextBits(first, last, oldBits, powLimit).value;
            var bits' := NextBits(first, last', oldBits, powLimit).value;
            && bits <= bits'
            && Target(bits).Ok? && Target(bits').Ok?
            && Target(bits).value <= Target(bits').value
  {
    var prior := Target(oldBits).value;
    var a, b := ClampedTimespan(first, last), ClampedTimespan(first, last');
    ScaledMonotone(prior, a, b, powLimit);
    RetargetBounds(first, last, oldBits, powLimit);
    RetargetBounds(first, last', oldBits, powLimit);
    var sa, sb := ScaledTarget(prior, a, powLimit), ScaledTarget(prior, b, powLimit);
    if sa > 0 {
      TargetsClosed(sa, powLimit);
      TargetsClosed(sb, powLimit);
      EncodingMonotone(sa, sb);
      EncodedTarget(sa);
      EncodedTarget(sb);
    }
  }

  /** The new difficulty is the largest target a word can name at or below the
      old one times the share of two weeks the period took, a share of less than
      a quarter counting as a quarter and one of more than four as four, or at or
      below the limit if that is less. */
  lemma RetargetFollowsTime(first: int, last: int, oldBits: uint32, powLimit: nat, taken: nat, w: uint32)
    requires Target(oldBits).Ok? && IsTarget(powLimit)
    requires taken == if last - first < 302_400 then 302_400 else if last - first > 4_838_400 then 4_838_400 else last - first
    ensures var goal := Min(powLimit, Target(oldBits).value * taken / 1_209_600);
            var r := NextBits(first, last, oldBits, powLimit);
            && r.Ok? && Target(r.value).Ok? && Target(r.value).value <= goal
            && (Target(w).Ok? && Target(w).value <= goal ==> Target(w).value <= Target(r.value).value)
  {
    hide Target, Bits;
    var prior := Target(oldBits).value;
    var goal := Min(powLimit, prior * taken / 1_209_600);
    assert goal == ScaledTarget(prior, ClampedTimespan(first, last), powLimit);
    LargestNamed(goal, powLimit, w);
  }

  lemma LargestNamed(goal: nat, powLimit: nat, w: uint32)
    requires goal <= powLimit && IsTarget(powLimit)
    ensures Target(Bits(goal)).Ok? && Target(Bits(goal)).value <= goal
    ensures Target(w).Ok? && Target(w).value <= goal ==> Target(w).value <= Target(Bits(goal)).value
  {
    if goal == 0 {
      assert Bits(0) == 0;
    } else {
      TargetsClosed(goal, powLimit);
      EncodingRoundsDown(goal);
      if Target(w).Ok? && Target(w).value <= goal {
        EncodingIsLargest(goal, w);
      }
    }
  }

  /** A period of exactly two weeks keeps canonical bits as they are. */
  lemma ExactPeriodKeepsBits(first: int, oldBits: uint32, powLimit: nat)
    requires Canonical(oldBits) && Target(oldBits).Ok? && Target(oldBits).value <= powLimit
    ensures NextBits(first, first + 1_209_600, oldBits, powLimit) == Ok(oldBits)
  {
    hide Target, Bits, Canonical;
    var prior := Target(oldBits).value;
    assert prior * 1_209_600 / 1_209_600 == prior;
    assert ScaledTarget(prior, ClampedTimespan(first, first + 1_209_600), powLimit) == prior;
    SameBits(oldBits);
  }

  lemma SameBits(w: uint32)
    requires Canonical(w) && Target(w).Ok?
    ensures Bits(Target(w).value) == w
  {
    RoundTripExactly(w);
  }
}
