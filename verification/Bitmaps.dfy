/** Acknowledgement bitmaps as numbers, and the sets of pids they stand for. Pids are below
    16, so a bitmap fits into the 16 bits that `cbc_sent_msg_create` lets through. */
module Bitmaps {
  import opened Powers

  /** `b & (1 << i)`: the binary digit at position `i`. */
  predicate HasBit(b: nat, i: nat) {
    if i == 0 then b % 2 == 1 else HasBit(b / 2, i - 1)
  }

  /** `b | (1 << i)`. */
  function Or(b: nat, i: nat): nat {
    if i == 0 then (if b % 2 == 1 then b else b + 1) else b % 2 + 2 * Or(b / 2, i - 1)
  }

  function Bits(b: nat): set<nat> { set i: nat | i < 16 && HasBit(b, i) }

  /** The bitmap passes through a `uint16_t` unchanged. */
  predicate Fits(b: nat) { b < 0x10000 }

  lemma {:induction false} OrAdds(b: nat, i: nat)
    ensures Or(b, i) == if HasBit(b, i) then b else b + Pow2(i)
  {
    if i > 0 {
      OrAdds(b / 2, i - 1);
    }
  }

  lemma {:induction false} OrHasBit(b: nat, i: nat, j: nat)
    ensures HasBit(Or(b, i), j) <==> HasBit(b, j) || i == j
  {
    if i > 0 && j > 0 {
      assert Or(b, i) / 2 == Or(b / 2, i - 1);
      OrHasBit(b / 2, i - 1, j - 1);
    } else if j > 0 {
      assert Or(b, i) / 2 == b / 2;
    }
  }

  lemma {:induction false} OrStaysBelow(b: nat, i: nat, k: nat)
    requires i < k && b < Pow2(k)
    ensures Or(b, i) < Pow2(k)
  {
    HalvesBelow(b, Pow2(k - 1));
    if i > 0 {
      OrStaysBelow(b / 2, i - 1, k - 1);
    }
  }

  lemma HalvesBelow(b: nat, h: nat)
    requires b < 2 * h
    ensures b / 2 < h && b == 2 * (b / 2) + b % 2
    ensures b % 2 == 0 ==> b + 1 < 2 * h
  {
  }

  lemma SixteenBits()
    ensures Pow2(16) == 0x10000
  {
    assert Pow2(4) == 16;
    assert Pow2(8) == 256;
    assert Pow2(12) == 4096;
  }

  /** OR-ing a bit in adds one pid to the set, and the bitmap still fits. */
  lemma SetBit(b: nat, i: nat)
    requires i < 16
    ensures Bits(Or(b, i)) == Bits(b) + {i}
    ensures Fits(b) ==> Fits(Or(b, i))
  {
    forall j: nat | j < 16 ensures j in Bits(Or(b, i)) <==> j in Bits(b) || j == i {
      OrHasBit(b, i, j);
    }
    if Fits(b) {
      SixteenBits();
      OrStaysBelow(b, i, 16);
    }
  }

  lemma {:induction false} NoBits(i: nat)
    ensures !HasBit(0, i)
  {
    if i > 0 {
      NoBits(i - 1);
    }
  }

  lemma EmptyBitmap()
    ensures Bits(0) == {}
  {
    forall i: nat ensures !HasBit(0, i) {
      NoBits(i);
    }
  }

  lemma {:induction false} SameDigits(a: nat, b: nat, k: nat)
    requires a < Pow2(k) && b < Pow2(k)
    requires forall i: nat :: i < k ==> HasBit(a, i) == HasBit(b, i)
    ensures a == b
  {
    if k > 0 {
      assert HasBit(a, 0) == HasBit(b, 0);
      forall i: nat | i < k - 1 ensures HasBit(a / 2, i) == HasBit(b / 2, i) {
        assert HasBit(a, i + 1) == HasBit(b, i + 1);
      }
      SameDigits(a / 2, b / 2, k - 1);
    }
  }

  /** Comparing two bitmaps compares the sets. */
  lemma SameBits(a: nat, b: nat)
    requires Fits(a) && Fits(b)
    ensures Bits(a) == Bits(b) <==> a == b
  {
    if Bits(a) == Bits(b) {
      forall i: nat | i < 16 ensures HasBit(a, i) == HasBit(b, i) {
        assert i in Bits(a) <==> i in Bits(b);
      }
      SixteenBits();
      SameDigits(a, b, 16);
    }
  }
}
