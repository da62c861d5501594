/** The bit operations of the source on unsigned words, as arithmetic on binary digits.
    `Bit(n, k)` is `n & (1 << k) != 0`, `SetBit` is `n | (1 << k)`, `ClearBit` is
    `n & !(1 << k)` (lemmas SetBitAdds and ClearBitSubtracts tie them to `1 << k`). */
module Bits {
  import opened Bytes

  predicate Bit(n: nat, k: nat) {
    if k == 0 then n % 2 == 1 else Bit(n / 2, k - 1)
  }

  function SetBit(n: nat, k: nat): nat {
    if k == 0 then 2 * (n / 2) + 1 else n % 2 + 2 * SetBit(n / 2, k - 1)
  }

  function ClearBit(n: nat, k: nat): nat {
    if k == 0 then 2 * (n / 2) else n % 2 + 2 * ClearBit(n / 2, k - 1)
  }

  function TrailingOnes(n: nat): nat {
    if n % 2 == 0 then 0 else 1 + TrailingOnes(n / 2)
  }

  /** `(1 << w) - 1`. */
  function Ones(w: nat): nat {
    Pow2(w) - 1
  }

  lemma {:induction false} SetBitAt(n: nat, k: nat, j: nat)
    ensures Bit(SetBit(n, k), j) <==> j == k || Bit(n, j)
  {
    if k > 0 && j > 0 {
      SetBitAt(n / 2, k - 1, j - 1);
      assert SetBit(n, k) / 2 == SetBit(n / 2, k - 1);
    }
  }

  lemma {:induction false} ClearBitAt(n: nat, k: nat, j: nat)
    ensures Bit(ClearBit(n, k), j) <==> j != k && Bit(n, j)
  {
    if k > 0 && j > 0 {
      ClearBitAt(n / 2, k - 1, j - 1);
      assert ClearBit(n, k) / 2 == ClearBit(n / 2, k - 1);
    }
  }

  lemma {:induction false} SetBitAdds(n: nat, k: nat)
    ensures SetBit(n, k) == n + (if Bit(n, k) then 0 else Pow2(k))
  {
    if k > 0 {
      SetBitAdds(n / 2, k - 1);
    }
  }

  lemma {:induction false} ClearBitSubtracts(n: nat, k: nat)
    ensures ClearBit(n, k) == n - (if Bit(n, k) then Pow2(k) else 0)
  {
    if k > 0 {
      ClearBitSubtracts(n / 2, k - 1);
    }
  }

  lemma {:induction false} SetBitInRange(n: nat, k: nat, w: nat)
    requires n < Pow2(w) && k < w
    ensures SetBit(n, k) < Pow2(w)
    decreases k
  {
    var half := n / 2;
    assert half < Pow2(w - 1);
    if k > 0 {
      SetBitInRange(half, k - 1, w - 1);
    }
  }

  lemma {:induction false} HighBitsClear(n: nat, w: nat, j: nat)
    requires n < Pow2(w) && w <= j
    ensures !Bit(n, j)
  {
    if w > 0 {
      HighBitsClear(n / 2, w - 1, j - 1);
    } else if j > 0 {
      HighBitsClear(0, 0, j - 1);
    }
  }

  lemma {:induction false} OnesBits(w: nat, j: nat)
    ensures Bit(Ones(w), j) <==> j < w
  {
    if w == 0 {
      HighBitsClear(0, 0, j);
    } else {
      assert Ones(w) == 2 * Ones(w - 1) + 1;
      if j > 0 {
        OnesBits(w - 1, j - 1);
      }
    }
  }

  /** `trailing_ones` is the position of the lowest clear bit. */
  lemma {:induction false} TrailingOnesIsLowestClear(n: nat)
    ensures !Bit(n, TrailingOnes(n))
    ensures forall j :: 0 <= j < TrailingOnes(n) ==> Bit(n, j)
  {
    if n % 2 == 1 {
      TrailingOnesIsLowestClear(n / 2);
      forall j | 0 < j < TrailingOnes(n)
        ensures Bit(n, j)
      {
        assert Bit(n / 2, j - 1);
      }
    }
  }

  lemma {:induction false} TrailingOnesInRange(n: nat, w: nat)
    requires n < Pow2(w) && n != Ones(w)
    ensures TrailingOnes(n) < w
  {
    if w > 0 && n % 2 == 1 {
      TrailingOnesInRange(n / 2, w - 1);
    }
  }

  /** A nonzero word has a set bit. */
  lemma {:induction false} SomeBit(n: nat) returns (k: nat)
    requires n > 0
    ensures Bit(n, k)
  {
    if n % 2 == 1 {
      k := 0;
    } else {
      k := SomeBit(n / 2);
      k := k + 1;
    }
  }

  /** A word is determined by its bits. */
  lemma {:induction false} BitsDetermine(a: nat, b: nat)
    requires forall k: nat :: Bit(a, k) <==> Bit(b, k)
    ensures a == b
    decreases a + b
  {
    assert Bit(a, 0) <==> Bit(b, 0);
    if a + b > 0 {
      forall k: nat
        ensures Bit(a / 2, k) <==> Bit(b / 2, k)
      {
        assert Bit(a, k + 1) <==> Bit(b, k + 1);
      }
      BitsDetermine(a / 2, b / 2);
    }
  }
}
