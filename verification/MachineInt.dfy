/**
 Unsigned 64-bit arithmetic of the C sources, written out on natural numbers:
 wrap-around, bitwise AND and the mask trick that stands in for a remainder.
 */
module MachineInt {

  /** One byte of a buffer, message or file. */
  newtype byte = x: int | 0 <= x < 256

  const TWO_TO_32: nat := 0x1_0000_0000

  const TWO_TO_64: nat := 0x1_0000_0000_0000_0000

  /** The value a uint64_t or size_t holds after arithmetic whose exact result is x. */
  function Wrap64(x: int): (r: nat)
    ensures r < TWO_TO_64
    ensures 0 <= x < TWO_TO_64 ==> r == x
  {
    x % TWO_TO_64
  }

  /** A difference that went below zero wraps to 2^64 above it; adding back undoes the wrap. */
  lemma WrapDifference(d: int, back: nat)
    requires 0 <= d + TWO_TO_64 && d < 0 <= d + back < TWO_TO_64
    ensures Wrap64(Wrap64(d) + back) == d + back
  {
    assert Wrap64(d) == d + TWO_TO_64;
  }

  lemma WrapShift(a: int, laps: int)
    ensures Wrap64(a + laps * TWO_TO_64) == Wrap64(a)
  {
  }

  /** Wrapping the parts of a sum first changes nothing. */
  lemma WrapPlus(a: int, b: int)
    ensures Wrap64(Wrap64(a) + b) == Wrap64(a + b)
  {
    WrapShift(Wrap64(a) + b, a / TWO_TO_64);
  }

  /** Nor does wrapping a factor. */
  lemma WrapTimes(a: int, k: nat)
    ensures Wrap64(Wrap64(a) * k) == Wrap64(a * k)
  {
    var laps := a / TWO_TO_64;
    assert a * k == Wrap64(a) * k + laps * k * TWO_TO_64 by {
      assert a == laps * TWO_TO_64 + Wrap64(a);
      LapsTimes(laps, Wrap64(a), k, TWO_TO_64);
    }
    WrapShift(Wrap64(a) * k, laps * k);
  }

  lemma LapsTimes(laps: int, rest: int, k: nat, m: nat)
    ensures (laps * m + rest) * k == rest * k + laps * k * m
  {
  }

  function Min(a: nat, b: nat): nat {
    if a < b then a else b
  }

  function Pow2(p: nat): (r: nat)
    ensures r >= 1
  {
    if p == 0 then 1 else 2 * Pow2(p - 1)
  }

  /** Bitwise AND, one binary digit at a time. */
  function BitAnd(x: nat, y: nat): nat {
    if x == 0 || y == 0 then 0
    else (if x % 2 == 1 && y % 2 == 1 then 1 else 0) + 2 * BitAnd(x / 2, y / 2)
  }

  /** A larger quotient gives a larger number, whatever the remainders. */
  lemma DivisionOrder(m: nat, q: int, r: nat, q': int, r': nat)
    requires r < m && r' < m && q > q'
    ensures q * m + r > q' * m + r'
  {
    assert (q - q' - 1) * m >= 0;
    assert q * m == q' * m + (q - q' - 1) * m + m;
  }

  /** Quotient and remainder are unique. */
  lemma DivisionUnique(m: nat, q: int, r: nat, q': int, r': nat)
    requires r < m && r' < m && q * m + r == q' * m + r'
    ensures q == q' && r == r'
  {
    if q > q' {
      DivisionOrder(m, q, r, q', r');
    } else if q < q' {
      DivisionOrder(m, q', r', q, r);
    }
  }

  /** A number of the form q * m + r with r below m has remainder r. */
  lemma ModUnique(x: nat, q: int, m: nat, r: nat)
    requires r < m && x == q * m + r
    ensures x % m == r && x / m == q
  {
    DivisionUnique(m, q, r, x / m, x % m);
  }

  /** An all-ones mask keeps the lowest digit. */
  lemma MaskDigit(x: nat, half: nat)
    requires half > 0
    ensures BitAnd(x, 2 * half - 1) == x % 2 + 2 * BitAnd(x / 2, half - 1)
  {
    var mask := 2 * half - 1;
    assert mask % 2 == 1 && mask / 2 == half - 1;
  }

  /** The remainder modulo an even number, digit by digit. */
  lemma HalveMod(x: nat, half: nat)
    requires half > 0
    ensures x % (2 * half) == x % 2 + 2 * ((x / 2) % half)
  {
    var q, m := x / 2 / half, (x / 2) % half;
    assert x / 2 == q * half + m;
    assert q * (2 * half) == 2 * (q * half);
    ModUnique(x, q, 2 * half, 2 * m + x % 2);
  }

  lemma MaskOneMore(x: nat, half: nat)
    requires half > 0 && BitAnd(x / 2, half - 1) == (x / 2) % half
    ensures BitAnd(x, 2 * half - 1) == x % (2 * half)
  {
    MaskDigit(x, half);
    HalveMod(x, half);
  }

  /** Masking with 2^p - 1 is taking the remainder modulo 2^p. */
  lemma {:induction false} MaskIsMod(x: nat, p: nat)
    ensures BitAnd(x, Pow2(p) - 1) == x % Pow2(p)
    decreases p
  {
    if p != 0 {
      MaskIsMod(x / 2, p - 1);
      MaskOneMore(x, Pow2(p - 1));
    } else {
      assert x % 1 == 0;
    }
  }

  /** A mask with its lowest digit clear. */
  lemma MaskShift(x: nat, mask: nat)
    ensures BitAnd(x, 2 * mask) == 2 * BitAnd(x / 2, mask)
  {
    assert (2 * mask) % 2 == 0 && (2 * mask) / 2 == mask;
  }

  lemma Regroup(half: nat, m: nat)
    ensures 2 * half * m == 2 * (half * m)
  {
  }

  /** A mask shifted up by low digits selects from the digits from position low on. */
  lemma {:induction false} MaskScaled(x: nat, low: nat, mask: nat)
    ensures BitAnd(x, Pow2(low) * mask) == Pow2(low) * BitAnd(HalveTimes(x, low), mask)
    decreases low
  {
    if low != 0 {
      var half, rest := Pow2(low - 1), BitAnd(HalveTimes(x / 2, low - 1), mask);
      Regroup(half, mask);
      Regroup(half, rest);
      MaskShift(x, half * mask);
      MaskScaled(x / 2, low - 1, mask);
    }
  }

  /** Masking with p ones above low zeros keeps p digits from position low on. */
  lemma MaskField(x: nat, low: nat, p: nat, mask: nat)
    requires mask == Pow2(low) * (Pow2(p) - 1)
    ensures BitAnd(x, mask) == Pow2(low) * (HalveTimes(x, low) % Pow2(p))
  {
    MaskScaled(x, low, Pow2(p) - 1);
    MaskIsMod(HalveTimes(x, low), p);
  }

  function HalveTimes(x: nat, times: nat): nat
    decreases times
  {
    if times == 0 then x else HalveTimes(x / 2, times - 1)
  }

  /** Reducing a summand first does not change a remainder. */
  lemma ModOfSum(a: nat, b: nat, m: nat)
    requires m > 0
    ensures (a % m + b) % m == (a + b) % m
  {
    var q, r := (a % m + b) / m, (a % m + b) % m;
    assert a + b == (a / m + q) * m + r by {
      assert a == a / m * m + a % m;
      assert (a / m + q) * m == a / m * m + q * m;
    }
    ModUnique(a + b, a / m + q, m, r);
  }

  lemma {:induction false} Pow2Product(a: nat, b: nat)
    ensures Pow2(a + b) == Pow2(a) * Pow2(b)
    decreases a
  {
    if a > 0 {
      Pow2Product(a - 1, b);
      Regroup(Pow2(a - 1), Pow2(b));
    }
  }

  lemma Pow2Monotone(a: nat, b: nat)
    requires a <= b
    ensures Pow2(a) <= Pow2(b)
    decreases b
  {
    if a < b {
      Pow2Monotone(a, b - 1);
    }
  }

  lemma TwoTo64()
    ensures Pow2(32) == TWO_TO_32 && Pow2(64) == TWO_TO_64
  {
    assert Pow2(8) == 256;
    Pow2Product(8, 8);
    assert Pow2(16) == 0x1_0000;
    Pow2Product(16, 16);
    assert Pow2(32) == 0x1_0000_0000;
    Pow2Product(32, 32);
  }
  /** Advancing a total by at most one lap moves its slot with at most one wrap. */
  lemma ModStep(total: nat, k: nat, m: nat)
    requires 0 < m && k <= m
    ensures (total + k) % m == if total % m + k < m then total % m + k else total % m + k - m
  {
    var q, r := total / m, total % m;
    assert total == q * m + r;
    if r + k < m {
      ModUnique(total + k, q, m, r + k);
    } else {
      assert (q + 1) * m == q * m + m;
      ModUnique(total + k, q + 1, m, r + k - m);
    }
  }

  /** An index after at most one lap, brought back into the buffer. */
  function Around(i: nat, size: nat): (x: nat)
    requires i < 2 * size
    ensures x < size
  {
    if i < size then i else i - size
  }

  lemma ModIsAround(i: nat, size: nat)
    requires i < 2 * size
    ensures i % size == Around(i, size)
  {
    ModUnique(i, if i < size then 0 else 1, size, Around(i, size));
  }

  /** Slot of item i in a circular buffer of 16 items, i & 0xF. */
  function Slot16(i: nat): (slot: nat)
    ensures slot == i % 16
  {
    FourOnes(i);
    BitAnd(i, 0xF)
  }

  /** Items less than a lap apart have different slots. */
  lemma SlotsDiffer(i: nat, j: nat)
    requires j < i < j + 16
    ensures i % 16 != j % 16
  {
  }

  lemma FourOnes(i: nat)
    ensures BitAnd(i, 15) == i % 16
  {
    assert Pow2(2) == 4 && Pow2(4) == 4 * Pow2(2);
    MaskIsMod(i, 4);
  }
}
