/**
 Words from bytes: the number a byte string stands for in either byte order, and the
 shift-and-or expressions of the sources that compute it.
 */
module Loads {
  import opened MachineInt
  import opened Words

  /** The number written by the bytes, most significant first. */
  function BigEndian(bytes: seq<byte>): (r: nat)
    decreases |bytes|
  {
    if |bytes| == 0 then 0 else BigEndian(bytes[..|bytes| - 1]) * 256 + bytes[|bytes| - 1] as nat
  }

  /** The number written by the bytes, least significant first. */
  function LittleEndian(bytes: seq<byte>): (r: nat)
    decreases |bytes|
  {
    if |bytes| == 0 then 0 else LittleEndian(bytes[..|bytes| - 1]) + bytes[|bytes| - 1] as nat * Pow2(8 * (|bytes| - 1))
  }

  lemma Byte256()
    ensures Pow2(8) == 256
  {
    assert Pow2(4) == 16;
  }

  lemma {:induction false} OrZero(w: nat, x: nat)
    requires x < Pow2(w)
    ensures Or(w, x, 0) == x && Or(w, 0, x) == x
    decreases w
  {
    if w > 0 {
      OrZero(w - 1, x / 2);
    }
  }

  /** Parts that share no digit: their union is their sum. */
  lemma {:induction false} OrDisjoint(w: nat, a: nat, b: nat, k: nat)
    requires b < Pow2(k) && a * Pow2(k) + b < Pow2(w)
    ensures Or(w, a * Pow2(k), b) == a * Pow2(k) + b
    ensures Or(w, b, a * Pow2(k)) == a * Pow2(k) + b
    decreases k
  {
    if k == 0 {
      OrZero(w, a);
      assert a * Pow2(0) == a;
    } else if w == 0 {
    } else {
      var half := a * Pow2(k - 1);
      assert a * Pow2(k) == 2 * half by { Regroup(Pow2(k - 1), a); assert Pow2(k) == 2 * Pow2(k - 1); }
      assert (2 * half) % 2 == 0 && (2 * half) / 2 == half;
      OrDisjoint(w - 1, a, b / 2, k - 1);
    }
  }

  /** byte 0 shifted highest, or byte 1 shifted one byte less, and so on, for the first j bytes. */
  function LoadByOrBig(w: nat, bytes: seq<byte>, j: nat): nat
    requires j <= |bytes|
    decreases j
  {
    if j == 0 then 0
    else Or(w, LoadByOrBig(w, bytes, j - 1), Shl(w, bytes[j - 1] as nat, 8 * (|bytes| - j)))
  }

  function LoadByOrLittle(w: nat, bytes: seq<byte>, j: nat): nat
    requires j <= |bytes|
    decreases j
  {
    if j == 0 then 0
    else Or(w, LoadByOrLittle(w, bytes, j - 1), Shl(w, bytes[j - 1] as nat, 8 * (j - 1)))
  }

  lemma {:induction false} BigEndianBound(bytes: seq<byte>)
    ensures BigEndian(bytes) < Pow2(8 * |bytes|)
    decreases |bytes|
  {
    if |bytes| > 0 {
      BigEndianBound(bytes[..|bytes| - 1]);
      Byte256();
      Pow2Product(8 * (|bytes| - 1), 8);
    }
  }

  /** Arithmetic of one more byte x, scaled by p, below a part scaled by 256 * p. */
  lemma OneMoreByte(high: nat, x: nat, p: nat, top: nat)
    requires x < 256 && p > 0 && high * 256 + 256 <= top
    ensures high * (256 * p) + x * p == (high * 256 + x) * p
    ensures x * p < 256 * p && high * (256 * p) + x * p < top * p
  {
    assert (256 - x) * p == 256 * p - x * p && (256 - x) * p > 0;
    assert (high * 256 + x) * p == (high * 256) * p + x * p;
    assert (high * 256) * p == high * (256 * p);
    var gap := top - (high * 256 + x);
    assert gap * p == top * p - (high * 256 + x) * p && gap * p > 0;
  }

  lemma {:induction false} LittleEndianBound(bytes: seq<byte>)
    ensures LittleEndian(bytes) < Pow2(8 * |bytes|)
    decreases |bytes|
  {
    if |bytes| > 0 {
      var n := |bytes| - 1;
      LittleEndianBound(bytes[..n]);
      ByteScale(8 * n);
      OneMoreByte(0, bytes[n] as nat, Pow2(8 * n), 256);
      TopByte(bytes[n] as nat, Pow2(8 * n));
    }
  }

  lemma TopByte(x: nat, p: nat)
    requires x < 256
    ensures x * p + p <= 256 * p
  {
    assert (255 - x) * p >= 0;
  }

  lemma ByteScale(m: nat)
    ensures Pow2(m + 8) == 256 * Pow2(m)
  {
    Byte256();
    Pow2Product(8, m);
  }

  /** One byte joins the part above it. */
  lemma JoinBelow(w: nat, high: nat, b: byte, m: nat, j: nat)
    requires j > 0 && w == 8 * j + m && high < Pow2(8 * (j - 1))
    ensures Or(w, high * Pow2(m + 8), Shl(w, b as nat, m)) == (high * 256 + b as nat) * Pow2(m)
  {
    var p, x := Pow2(m), b as nat;
    ByteScale(m);
    ByteScale(8 * (j - 1));
    Pow2Product(8 * j, m);
    OneMoreByte(high, x, p, Pow2(8 * j));
    assert high * (256 * p) >= 0;
    Unreduced(w, x * p);
    OrDisjoint(w, high, x * p, m + 8);
  }

  lemma Unreduced(w: nat, x: nat)
    requires x < Pow2(w)
    ensures Reduce(w, x) == x
  {
    ModUnique(x, 0, Pow2(w), x);
  }

  lemma {:induction false} LoadBigPrefix(w: nat, bytes: seq<byte>, j: nat)
    requires w == 8 * |bytes| && j <= |bytes|
    ensures LoadByOrBig(w, bytes, j) == BigEndian(bytes[..j]) * Pow2(8 * (|bytes| - j))
    decreases j
  {
    if j == 0 {
      assert bytes[..0] == [];
    } else {
      LoadBigPrefix(w, bytes, j - 1);
      BigEndianBound(bytes[..j - 1]);
      JoinBelow(w, BigEndian(bytes[..j - 1]), bytes[j - 1], 8 * (|bytes| - j), j);
      BigEndianPrefix(bytes, j);
    }
  }

  lemma BigEndianPrefix(bytes: seq<byte>, j: nat)
    requires 0 < j <= |bytes|
    ensures BigEndian(bytes[..j]) == BigEndian(bytes[..j - 1]) * 256 + bytes[j - 1] as nat
    ensures LittleEndian(bytes[..j]) == LittleEndian(bytes[..j - 1]) + bytes[j - 1] as nat * Pow2(8 * (j - 1))
  {
    assert bytes[..j][..j - 1] == bytes[..j - 1];
  }

  /** One byte joins the part below it. */
  lemma JoinAbove(w: nat, low: nat, b: byte, m: nat)
    requires m + 8 <= w && low < Pow2(m)
    ensures Or(w, low, Shl(w, b as nat, m)) == low + b as nat * Pow2(m)
  {
    var p, x := Pow2(m), b as nat;
    ByteScale(m);
    TopByte(x, p);
    Pow2Monotone(m + 8, w);
    assert x * p >= 0;
    Unreduced(w, x * p);
    OrDisjoint(w, x, low, m);
  }

  lemma {:induction false} LoadLittlePrefix(w: nat, bytes: seq<byte>, j: nat)
    requires w == 8 * |bytes| && j <= |bytes|
    ensures LoadByOrLittle(w, bytes, j) == LittleEndian(bytes[..j])
    decreases j
  {
    if j == 0 {
      assert bytes[..0] == [];
    } else {
      LoadLittlePrefix(w, bytes, j - 1);
      LittleEndianBound(bytes[..j - 1]);
      JoinAbove(w, LittleEndian(bytes[..j - 1]), bytes[j - 1], 8 * (j - 1));
      BigEndianPrefix(bytes, j);
    }
  }

  /** The macros' shift-and-or loads compute the numbers the bytes stand for. */
  lemma LoadsAreNumbers(w: nat, bytes: seq<byte>)
    requires w == 8 * |bytes|
    ensures LoadByOrBig(w, bytes, |bytes|) == BigEndian(bytes)
    ensures LoadByOrLittle(w, bytes, |bytes|) == LittleEndian(bytes)
  {
    LoadBigPrefix(w, bytes, |bytes|);
    LoadLittlePrefix(w, bytes, |bytes|);
    assert bytes[..|bytes|] == bytes;
    assert BigEndian(bytes) * Pow2(0) == BigEndian(bytes);
  }

  /** The bswap instruction: the four bytes of a word in reverse order. */
  function Bswap(x: nat): nat {
    (x % 256) * 0x100_0000 + (x / 0x100 % 256) * 0x1_0000 + (x / 0x1_0000 % 256) * 0x100 + x / 0x100_0000 % 256
  }

  /** A little-endian load of a word followed by bswap is a big-endian load. */
  lemma SwappedLoad(b: seq<byte>)
    requires |b| == 4
    ensures Bswap(LittleEndian(b)) == BigEndian(b)
  {
    FourBytes(b);
    Digits(b[0] as nat, b[1] as nat, b[2] as nat, b[3] as nat);
  }

  lemma Digits(b0: nat, b1: nat, b2: nat, b3: nat)
    requires b0 < 256 && b1 < 256 && b2 < 256 && b3 < 256
    ensures Bswap(b0 + b1 * 0x100 + b2 * 0x1_0000 + b3 * 0x100_0000)
            == b0 * 0x100_0000 + b1 * 0x1_0000 + b2 * 0x100 + b3
  {
    var x := b0 + b1 * 0x100 + b2 * 0x1_0000 + b3 * 0x100_0000;
    ModUnique(x, b1 + b2 * 0x100 + b3 * 0x1_0000, 0x100, b0);
    ModUnique(x, b2 + b3 * 0x100, 0x1_0000, b0 + b1 * 0x100);
    ModUnique(x, b3, 0x100_0000, b0 + b1 * 0x100 + b2 * 0x1_0000);
    ModUnique(b1 + b2 * 0x100 + b3 * 0x1_0000, b2 + b3 * 0x100, 0x100, b1);
    ModUnique(b2 + b3 * 0x100, b3, 0x100, b2);
    ModUnique(b3, 0, 0x100, b3);
  }

  lemma FourBytes(b: seq<byte>)
    requires |b| == 4
    ensures LittleEndian(b) == b[0] as nat + b[1] as nat * 0x100 + b[2] as nat * 0x1_0000 + b[3] as nat * 0x100_0000
    ensures BigEndian(b) == b[0] as nat * 0x100_0000 + b[1] as nat * 0x1_0000 + b[2] as nat * 0x100 + b[3] as nat
  {
    Byte256();
    ByteScale(8);
    ByteScale(16);
    assert b[..4] == b && b[..0] == [];
    BigEndianPrefix(b, 1);
    BigEndianPrefix(b, 2);
    BigEndianPrefix(b, 3);
    BigEndianPrefix(b, 4);
  }
}
