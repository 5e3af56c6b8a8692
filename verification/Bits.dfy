/** 64-bit words as naturals, with their bit operations written out bit by bit. */
module Bits {
  import opened Config

  const WORD: nat := 0x1_0000_0000_0000_0000

  predicate Bit(w: nat, k: nat)
    decreases k
  {
    if k == 0 then w % 2 == 1 else Bit(w / 2, k - 1)
  }

  /** `w & ~(1 << k)` */
  function ClearBit(w: nat, k: nat): nat
    decreases k
  {
    if k == 0 then w / 2 * 2 else 2 * ClearBit(w / 2, k - 1) + w % 2
  }

  /** `w | (1 << k)` */
  function SetBit(w: nat, k: nat): nat
    decreases k
  {
    if k == 0 then w / 2 * 2 + 1 else 2 * SetBit(w / 2, k - 1) + w % 2
  }

  /** `std::countr_zero`: the position of the lowest set bit. */
  function CountrZero(w: nat): nat
    requires w > 0
  {
    if w % 2 == 1 then 0 else 1 + CountrZero(w / 2)
  }

  lemma {:induction false} ClearBitAt(w: nat, k: nat, j: nat)
    ensures Bit(ClearBit(w, k), j) <==> j != k && Bit(w, j)
    decreases k
  {
    if k > 0 && j > 0 { ClearBitAt(w / 2, k - 1, j - 1); }
  }

  lemma {:induction false} SetBitAt(w: nat, k: nat, j: nat)
    ensures Bit(SetBit(w, k), j) <==> j == k || Bit(w, j)
    decreases k
  {
    if k > 0 && j > 0 { SetBitAt(w / 2, k - 1, j - 1); }
  }

  lemma {:induction false} CountrZeroIsLowest(w: nat)
    requires w > 0
    ensures Bit(w, CountrZero(w))
    ensures forall j: nat :: j < CountrZero(w) ==> !Bit(w, j)
  {
    if w % 2 == 0 {
      CountrZeroIsLowest(w / 2);
      forall j: nat | j < CountrZero(w)
        ensures !Bit(w, j)
      {
        assert j > 0 ==> !Bit(w / 2, j - 1);
      }
    }
  }

  lemma {:induction false} ZeroHasNoBits(j: nat)
    ensures !Bit(0, j)
  {
    if j > 0 { ZeroHasNoBits(j - 1); }
  }

  /** A word below 2^n has no set bit at or above n, and the operations on its
      bits stay below 2^n. */
  lemma {:induction false} BitInWord(w: nat, n: nat, k: nat)
    requires w < Pow2(n)
    ensures Bit(w, k) ==> k < n
    ensures k < n ==> ClearBit(w, k) < Pow2(n) && SetBit(w, k) < Pow2(n)
    decreases n
  {
    if n == 0 {
      ZeroHasNoBits(k);
    } else if k > 0 {
      BitInWord(w / 2, n - 1, k - 1);
    }
  }

  /** `(1 << t) - 1` has exactly its low t bits set. */
  lemma {:induction false} LowMaskBits(t: nat, j: nat)
    ensures Bit(Pow2(t) - 1, j) <==> j < t
    decreases t
  {
    if t == 0 {
      ZeroHasNoBits(j);
    } else {
      assert (Pow2(t) - 1) / 2 == Pow2(t - 1) - 1;
      if j > 0 { LowMaskBits(t - 1, j - 1); }
    }
  }

  lemma WordIsPow2()
    ensures WORD == Pow2(64)
  {
    assert Pow2(4) == 16;
    assert Pow2(8) == 0x100 by { Pow2Add(4, 4); }
    assert Pow2(16) == 0x1_0000 by { Pow2Add(8, 8); }
    assert Pow2(32) == 0x1_0000_0000 by { Pow2Add(16, 16); }
    Pow2Add(32, 32);
  }

  /** `std::has_single_bit` */
  predicate HasSingleBit(x: nat) { x > 0 && x == Pow2(CountrZero(x)) }

  /** Shifting right by n drops a remainder below 2^n. */
  lemma {:induction false} ShrDivides(x: nat, n: nat) returns (rest: nat)
    ensures x == Shr(x, n) * Pow2(n) + rest && rest < Pow2(n)
    decreases n
  {
    if n == 0 {
      rest := 0;
    } else {
      rest := ShrDivides(x / 2, n - 1);
      MulDouble(Shr(x, n), Pow2(n - 1));
      rest := 2 * rest + x % 2;
    }
  }

  lemma ShiftIsDivision(x: nat, size: nat)
    requires HasSingleBit(size)
    ensures Shr(x, CountrZero(size)) == x / size
  {
    var rest := ShrDivides(x, CountrZero(size));
    assert (Shr(x, CountrZero(size)) + 1) * size == Shr(x, CountrZero(size)) * size + size;
    QuotientUnique(x, size, Shr(x, CountrZero(size)));
  }
}
