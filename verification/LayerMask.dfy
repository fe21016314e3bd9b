/**
 Layer masks: signed 32-bit integers with one bit for each of the eight protocol layers.
 */
module LayerMask {
  import opened Basics

  type Mask = m: int | -0x8000_0000 <= m < 0x8000_0000

  const MAX_LAYER_NR: int := 7

  /** Bit n of an integer, in two's complement. */
  predicate Bit(m: int, n: nat)
    decreases n
  {
    if n == 0 then m % 2 == 1 else Bit(m / 2, n - 1)
  }

  /** The integer without bit n. */
  function Clear(m: int, n: nat): int
    decreases n
  {
    if n == 0 then m - m % 2 else 2 * Clear(m / 2, n - 1) + m % 2
  }

  /** The integer with bit n. */
  function With(m: int, n: nat): int
    decreases n
  {
    if n == 0 then m - m % 2 + 1 else 2 * With(m / 2, n - 1) + m % 2
  }

  lemma Halves(x: int, r: int)
    requires r == 0 || r == 1
    ensures (2 * x + r) / 2 == x && (2 * x + r) % 2 == r
  {
  }

  lemma {:induction false} ClearBits(m: int, n: nat, k: nat)
    ensures Bit(Clear(m, n), k) <==> Bit(m, k) && k != n
    decreases n
  {
    if n == 0 {
      assert m == 2 * (m / 2) + m % 2;
      Halves(m / 2, 0);
    } else {
      Halves(Clear(m / 2, n - 1), m % 2);
      if k > 0 {
        ClearBits(m / 2, n - 1, k - 1);
      }
    }
  }

  lemma {:induction false} WithBits(m: int, n: nat, k: nat)
    ensures Bit(With(m, n), k) <==> Bit(m, k) || k == n
    decreases n
  {
    if n == 0 {
      assert m == 2 * (m / 2) + m % 2;
      Halves(m / 2, 1);
    } else {
      Halves(With(m / 2, n - 1), m % 2);
      if k > 0 {
        WithBits(m / 2, n - 1, k - 1);
      }
    }
  }

  /** Clearing a bit makes a number smaller exactly when the bit is set, and never negative. */
  lemma {:induction false} ClearShrinks(m: int, n: nat)
    ensures Clear(m, n) <= m && (Bit(m, n) <==> Clear(m, n) < m) && (0 <= m ==> 0 <= Clear(m, n))
    decreases n
  {
    if n > 0 {
      ClearShrinks(m / 2, n - 1);
    }
  }

  /** A number other than zero that fits in width bits has one of them. */
  lemma {:induction false} SomeBit(m: int, width: nat)
    requires m != 0 && 0 - Pow2(width) <= m < Pow2(width)
    ensures exists n: nat :: n <= width && Bit(m, n) && (m > 0 ==> n < width)
    decreases width
  {
    if m % 2 == 1 {
      assert Bit(m, 0);
    } else {
      assert width > 0;
      SomeBit(m / 2, width - 1);
      var n: nat :| n <= width - 1 && Bit(m / 2, n) && (m / 2 > 0 ==> n < width - 1);
      assert Bit(m, n + 1);
    }
  }

  lemma {:induction false} ZeroHasNoBit(n: nat)
    ensures !Bit(0, n)
    decreases n
  {
    if n > 0 {
      ZeroHasNoBit(n - 1);
    }
  }

  /** The bits of a number with a part shifted up by k bits above a part that fits in them. */
  lemma {:induction false} BitSplit(a: int, b: int, k: nat, n: nat)
    requires 0 <= b < Pow2(k)
    ensures Bit(a * Pow2(k) + b, n) == if n < k then Bit(b, n) else Bit(a, n - k)
    decreases k
  {
    if k > 0 {
      assert a * Pow2(k) == 2 * (a * Pow2(k - 1));
      assert (a * Pow2(k) + b) / 2 == a * Pow2(k - 1) + b / 2;
      assert (a * Pow2(k) + b) % 2 == b % 2;
      if n > 0 {
        BitSplit(a, b / 2, k - 1, n - 1);
      }
    }
  }

  /** Masks with a bit in common. */
  predicate Meets(a: Mask, b: Mask) {
    exists n :: 0 <= n < 32 && Bit(a, n) && Bit(b, n)
  }

  lemma MeetsItself(m: Mask)
    requires m != 0
    ensures Meets(m, m)
  {
    assert Pow2(31) == 0x8000_0000 by { Powers(); }
    SomeBit(m, 31);
  }

  lemma Powers()
    ensures Pow2(8) == 256 && Pow2(16) == 0x1_0000 && Pow2(20) == 0x10_0000 && Pow2(31) == 0x8000_0000
    ensures Pow2(28) == 0x1000_0000
  {
    assert Pow2(4) == 16;
    assert Pow2(8) == 256;
    assert Pow2(12) == 4096;
    assert Pow2(16) == 65536;
    assert Pow2(20) == 0x10_0000;
    assert Pow2(24) == 0x100_0000;
    assert Pow2(28) == 0x1000_0000;
  }

  /** A layer of the mask. */
  predicate HasLayer(m: int) {
    exists n :: 0 <= n <= MAX_LAYER_NR && Bit(m, n)
  }

  /** A mask below 256 has nothing but layers. */
  lemma OnlyLayers(m: int)
    requires 0 < m < 256
    ensures HasLayer(m)
  {
    Powers();
    SomeBit(m, 8);
  }

  /** The lowest layer of a mask: layer 0 when it has none. */
  function LowLayer(m: int): (n: nat)
    ensures n <= MAX_LAYER_NR
    ensures if HasLayer(m) then Bit(m, n) && forall k | 0 <= k < n :: !Bit(m, k) else n == 0
  {
    if HasLayer(m) then LowFrom(m, 0) else 0
  }

  function LowFrom(m: int, at: nat): (n: nat)
    requires exists n :: at <= n <= MAX_LAYER_NR && Bit(m, n)
    ensures at <= n <= MAX_LAYER_NR && Bit(m, n)
    ensures forall k | at <= k < n :: !Bit(m, k)
    decreases MAX_LAYER_NR - at
  {
    if Bit(m, at) then at else LowFrom(m, at + 1)
  }

  method GetLowLayer(m: int) returns (n: nat)
    ensures n == LowLayer(m)
  {
    hide Bit, LowFrom;
    if m == 0 {
      assert LowLayer(0) == 0 by { NoneInZero(); }
      return 0;
    }
    n := 0;
    while n <= MAX_LAYER_NR
      invariant n <= MAX_LAYER_NR + 1
      invariant forall k | 0 <= k < n :: !Bit(m, k)
    {
      if Bit(m, n) {
        return;
      }
      n := n + 1;
    }
    return 0;
  }

  lemma NoneInZero()
    ensures !HasLayer(0)
  {
    forall n: nat
      ensures !Bit(0, n)
    {
      ZeroHasNoBit(n);
    }
  }

  /** Masks without a common bit have different lowest layers. */
  lemma LowLayersDiffer(a: Mask, b: Mask)
    requires HasLayer(a) && HasLayer(b) && !Meets(a, b)
    ensures LowLayer(a) != LowLayer(b)
  {
    hide Bit, LowFrom;
    assert Bit(a, LowLayer(a)) && Bit(b, LowLayer(b));
  }

  lemma LowBitsOf256(n: nat)
    requires n <= MAX_LAYER_NR
    ensures !Bit(256, n)
  {
    assert !Bit(256, 0) && !Bit(256, 1) && !Bit(128, 1) && !Bit(64, 1) && !Bit(32, 1) && !Bit(16, 1) && !Bit(8, 1)
           && !Bit(4, 1);
    assert !Bit(8, 2) && !Bit(16, 3) && !Bit(32, 4) && !Bit(64, 5) && !Bit(128, 6) && !Bit(256, 7);
  }

  /** The smallest mask beyond the eight layers. */
  lemma NoLayerIn256()
    ensures !HasLayer(256) && LowLayer(256) == 0
  {
    hide Bit, LowFrom;
    forall n: nat | n <= MAX_LAYER_NR
      ensures !Bit(256, n)
    {
      LowBitsOf256(n);
    }
  }
}
