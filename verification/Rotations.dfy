/**
 What the shifts and rotations of the hash functions do to the digits of a word. Digit i
 of a word is the one of weight 2^i.
 */
module Rotations {
  import opened MachineInt
  import opened Words

  lemma {:induction false} ShrBit(x: nat, n: nat, i: nat)
    ensures Bit(Shr(x, n), i) == Bit(x, i + n)
    decreases n
  {
    if n == 0 {
      assert x / 1 == x;
    } else {
      ShrBit(x / 2, n - 1, i);
      DivideTwice(x, Pow2(n - 1));
    }
  }

  lemma DivideTwice(x: nat, half: nat)
    requires half > 0
    ensures x / (2 * half) == (x / 2) / half
  {
    var q, r := (x / 2) / half, (x / 2) % half;
    assert x / 2 == q * half + r;
    assert q * (2 * half) == 2 * (q * half);
    ModUnique(x, q, 2 * half, 2 * r + x % 2);
  }

  /** Multiplying by 2^n moves every digit up by n. */
  lemma {:induction false} TimesBit(x: nat, n: nat, i: nat)
    ensures Bit(x * Pow2(n), i) == (i >= n && Bit(x, i - n))
    decreases n
  {
    if n == 0 {
      assert x * 1 == x;
    } else {
      var half := x * Pow2(n - 1);
      Doubled(x, Pow2(n - 1), half);
      if i > 0 {
        TimesBit(x, n - 1, i - 1);
      }
    }
  }

  lemma Doubled(x: nat, p: nat, half: nat)
    requires half == x * p
    ensures x * (2 * p) == 2 * half && (2 * half) % 2 == 0 && (2 * half) / 2 == half
  {
  }

  /** The digits below w do not depend on the others. */
  lemma {:induction false} ReduceBit(w: nat, x: nat, i: nat)
    requires i < w
    ensures Bit(Reduce(w, x), i) == Bit(x, i)
    decreases w
  {
    HalveMod(x, Pow2(w - 1));
    LastDigit(x % 2, Reduce(w - 1, x / 2));
    if i > 0 {
      ReduceBit(w - 1, x / 2, i - 1);
    }
  }

  lemma ShlBit(w: nat, x: nat, n: nat, i: nat)
    requires i < w
    ensures Bit(Shl(w, x, n), i) == (i >= n && Bit(x, i - n))
  {
    ReduceBit(w, x * Pow2(n), i);
    TimesBit(x, n, i);
  }

  /** A word has no digits from its width on. */
  lemma {:induction false} NoHigherBit(w: nat, x: nat, i: nat)
    requires x < Pow2(w) && i >= w
    ensures !Bit(x, i)
    decreases w, i
  {
    if w > 0 {
      NoHigherBit(w - 1, x / 2, i - 1);
    } else if i > 0 {
      NoHigherBit(0, x / 2, i - 1);
    }
  }

  /** A rotation to the right moves every digit down by n places, and the lowest ones to the top. */
  lemma RotrBit(w: nat, x: nat, n: nat, i: nat)
    requires x < Pow2(w) && n <= w && i < w
    ensures Bit(Rotr(w, x, n), i) == Bit(x, (i + n) % w)
  {
    CombineBit(OR, w, Shl(w, x, w - n), Shr(x, n), i);
    ShlBit(w, x, w - n, i);
    ShrBit(x, n, i);
    ModIsAround(i + n, w);
    if i + n >= w {
      NoHigherBit(w, x, i + n);
    }
  }

  /** A rotation to the left moves every digit up by n places, and the highest ones to the bottom. */
  lemma RotlBit(w: nat, x: nat, n: nat, i: nat)
    requires x < Pow2(w) && n <= w && i < w
    ensures Bit(Rotl(w, x, n), i) == Bit(x, (i + w - n) % w)
  {
    CombineBit(OR, w, Shl(w, x, n), Shr(x, w - n), i);
    ShlBit(w, x, n, i);
    ShrBit(x, w - n, i);
    ModIsAround(i + w - n, w);
    if i + w - n >= w {
      NoHigherBit(w, x, i + w - n);
    }
  }

  lemma ParityBit(w: nat, x: nat, y: nat, z: nat, i: nat)
    requires i < w
    ensures Bit(Parity(w, x, y, z), i) == ((Bit(x, i) != Bit(y, i)) != Bit(z, i))
  {
    CombineBit(XOR, w, Xor(w, x, y), z, i);
    CombineBit(XOR, w, x, y, i);
  }
}
