/** The payout bitmap: a u128 read and written one bit at a time with `1 << position`. */
module Bitmap {
  import opened Common

  /** Bit `p` of `b`, i.e. `b & (1 << p) != 0`. */
  predicate Bit(b: nat, p: nat) {
    if p == 0 then b % 2 == 1 else Bit(b / 2, p - 1)
  }

  /** `b | (1 << p)`. */
  function SetBit(b: nat, p: nat): nat {
    if p == 0 then (if b % 2 == 1 then b else b + 1)
    else 2 * SetBit(b / 2, p - 1) + b % 2
  }

  function Popcount(b: nat): nat {
    if b == 0 then 0 else b % 2 + Popcount(b / 2)
  }

  function Pow2(n: nat): nat {
    if n == 0 then 1 else 2 * Pow2(n - 1)
  }

  /** Setting a bit changes that bit and no other. */
  lemma {:induction false} BitAfterSet(b: nat, p: nat, q: nat)
    ensures Bit(SetBit(b, p), q) <==> q == p || Bit(b, q)
  {
    if p > 0 {
      assert SetBit(b, p) / 2 == SetBit(b / 2, p - 1) && SetBit(b, p) % 2 == b % 2;
      if q > 0 {
        BitAfterSet(b / 2, p - 1, q - 1);
      }
    } else {
      assert SetBit(b, 0) / 2 == b / 2;
    }
  }

  /** Setting a clear bit adds one to the count of set bits; setting it again adds nothing. */
  lemma {:induction false} PopcountAfterSet(b: nat, p: nat)
    ensures Popcount(SetBit(b, p)) == Popcount(b) + if Bit(b, p) then 0 else 1
  {
    PopcountHalves(b);
    PopcountHalves(SetBit(b, p));
    if p > 0 {
      assert SetBit(b, p) / 2 == SetBit(b / 2, p - 1) && SetBit(b, p) % 2 == b % 2;
      PopcountAfterSet(b / 2, p - 1);
    } else {
      assert SetBit(b, 0) / 2 == b / 2;
    }
  }

  lemma PopcountHalves(b: nat)
    ensures Popcount(b) == b % 2 + Popcount(b / 2)
  {
  }

  /** A clear bit weighs its power of two. */
  lemma {:induction false} SetBitAddsPower(b: nat, p: nat)
    ensures SetBit(b, p) == if Bit(b, p) then b else b + Pow2(p)
  {
    if p > 0 {
      SetBitAddsPower(b / 2, p - 1);
    }
  }

  /** With no set bit at or above `n`, at most `n` bits are set and the bitmap is below `2^n`. */
  lemma {:induction false} BitsBelow(b: nat, n: nat)
    requires forall q :: q >= n ==> !Bit(b, q)
    ensures Popcount(b) <= n && b < Pow2(n)
    decreases n, b
  {
    if n > 0 {
      forall q | q >= n - 1
        ensures !Bit(b / 2, q)
      {
        assert !Bit(b, q + 1);
      }
      BitsBelow(b / 2, n - 1);
    } else if b > 0 {
      forall q: nat
        ensures !Bit(b / 2, q)
      {
        assert !Bit(b, q + 1);
      }
      assert !Bit(b, 0);
      BitsBelow(b / 2, 0);
    }
  }

  lemma {:induction false} Pow2Monotone(m: nat, n: nat)
    requires m <= n
    ensures Pow2(m) <= Pow2(n)
  {
    if m < n {
      Pow2Monotone(m, n - 1);
    }
  }

  lemma {:induction false} Pow2Sum(m: nat, n: nat)
    ensures Pow2(m + n) == Pow2(m) * Pow2(n)
  {
    if m > 0 {
      Pow2Sum(m - 1, n);
    }
  }

  lemma Pow2Of128()
    ensures Pow2(128) == U128_MAX + 1
  {
    hide Pow2;
    Pow2Of64();
    Pow2Sum(64, 64);
  }

  lemma Pow2Of64()
    ensures Pow2(64) == U64_MAX + 1
  {
    assert Pow2(8) == 256 by { assert Pow2(4) == 16; Pow2Sum(4, 4); }
    assert Pow2(16) == 65536 by { Pow2Sum(8, 8); }
    assert Pow2(32) == 65536 * 65536 by { Pow2Sum(16, 16); }
    Pow2Sum(32, 32);
  }

  /** A bitmap over at most 128 positions is a u128. */
  lemma BitmapFitsU128(b: nat, n: nat)
    requires n <= 128 && forall q :: q >= n ==> !Bit(b, q)
    ensures b <= U128_MAX
  {
    BitsBelow(b, n);
    Pow2Monotone(n, 128);
    Pow2Of128();
  }
}
