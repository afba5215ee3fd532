/**
 What the tables and amounts of the hash functions stand for, so that each has a meaning
 beside the code: the roots whose digits are the constants of SHA-1 and SHA-2 (sections
 4.2.2, 4.2.3 and 5.3 of FIPS 180-4), the byte pattern of the initial states of MD5 and
 SHA-1 (section 3.3 of RFC 1321), and the digits that the sigma functions combine.
 */
module HashConstants {
  import opened MachineInt
  import opened Loads
  import opened Words
  import opened Rotations
  import Hashing
  import Sha1
  import Sha2

  // Roots of primes

  /** The first eighty primes. */
  function Prime(j: nat): nat
    requires j < 80
  {
    if j < 16 then Primesa()[j] else if j < 32 then Primesb()[j - 16] else if j < 48 then Primesc()[j - 32]
    else if j < 64 then Primesd()[j - 48] else Primese()[j - 64]
  }

  function Primesa(): (p: seq<nat>)
    ensures |p| == 16
  {
    [2, 3, 5, 7, 11, 13, 17, 19, 23, 29, 31, 37, 41, 43, 47, 53]
  }

  function Primesb(): (p: seq<nat>)
    ensures |p| == 16
  {
    [59, 61, 67, 71, 73, 79, 83, 89, 97, 101, 103, 107, 109, 113, 127, 131]
  }

  function Primesc(): (p: seq<nat>)
    ensures |p| == 16
  {
    [137, 139, 149, 151, 157, 163, 167, 173, 179, 181, 191, 193, 197, 199, 211, 223]
  }

  function Primesd(): (p: seq<nat>)
    ensures |p| == 16
  {
    [227, 229, 233, 239, 241, 251, 257, 263, 269, 271, 277, 281, 283, 293, 307, 311]
  }

  function Primese(): (p: seq<nat>)
    ensures |p| == 16
  {
    [313, 317, 331, 337, 347, 349, 353, 359, 367, 373, 379, 383, 389, 397, 401, 409]
  }

  /** The whole part of the cube root of a number below 512. */
  function WholeCubeRoot(p: nat): nat {
    if p < 8 then 1 else if p < 27 then 2 else if p < 64 then 3 else if p < 125 then 4
    else if p < 216 then 5 else if p < 343 then 6 else 7
  }

  /** The whole part of the square root of a number from 1 to 24. */
  function WholeSquareRoot(p: nat): nat {
    if p < 4 then 1 else if p < 9 then 2 else if p < 16 then 3 else 4
  }

  /** The word is the first binary digits behind the point of the cube root of p, as many as make up the unit. */
  predicate CubeRootBits(p: nat, unit: nat, word: nat) {
    var x := WholeCubeRoot(p) * unit + word;
    word < unit && x * x * x <= p * unit * unit * unit < (x + 1) * (x + 1) * (x + 1)
  }

  /** The same for the square root. */
  predicate SquareRootBits(p: nat, unit: nat, word: nat) {
    var x := WholeSquareRoot(p) * unit + word;
    word < unit && x * x <= p * unit * unit < (x + 1) * (x + 1)
  }

  lemma Roots256a(j: nat)
    requires j < 16
    ensures CubeRootBits(Primesa()[j], TWO_TO_32, Sha2.K256a()[j])
  {
  }

  lemma Roots256b(j: nat)
    requires j < 16
    ensures CubeRootBits(Primesb()[j], TWO_TO_32, Sha2.K256b()[j])
  {
  }

  lemma Roots256c(j: nat)
    requires j < 16
    ensures CubeRootBits(Primesc()[j], TWO_TO_32, Sha2.K256c()[j])
  {
  }

  lemma Roots256d(j: nat)
    requires j < 16
    ensures CubeRootBits(Primesd()[j], TWO_TO_32, Sha2.K256d()[j])
  {
  }

  lemma Roots512a(j: nat)
    requires j < 16
    ensures CubeRootBits(Primesa()[j], TWO_TO_64, Sha2.K512a()[j])
  {
  }

  lemma Roots512b(j: nat)
    requires j < 16
    ensures CubeRootBits(Primesb()[j], TWO_TO_64, Sha2.K512b()[j])
  {
  }

  lemma Roots512c(j: nat)
    requires j < 16
    ensures CubeRootBits(Primesc()[j], TWO_TO_64, Sha2.K512c()[j])
  {
  }

  lemma Roots512d(j: nat)
    requires j < 16
    ensures CubeRootBits(Primesd()[j], TWO_TO_64, Sha2.K512d()[j])
  {
  }

  lemma Roots512e(j: nat)
    requires j < 16
    ensures CubeRootBits(Primese()[j], TWO_TO_64, Sha2.K512e()[j])
  {
  }

  /** The round constants of SHA-256: 32 digits of the cube roots of the first 64 primes. */
  lemma K256IsCubeRoots(j: nat)
    requires j < 64
    ensures CubeRootBits(Prime(j), TWO_TO_32, Sha2.K256()[j])
  {
    if j < 16 {
      Roots256a(j);
    } else if j < 32 {
      Roots256b(j - 16);
    } else if j < 48 {
      Roots256c(j - 32);
    } else {
      Roots256d(j - 48);
    }
  }

  lemma Fifths(a: seq<nat>, b: seq<nat>, c: seq<nat>, d: seq<nat>, e: seq<nat>, i: nat)
    requires |a| == |b| == |c| == |d| == |e| == 16 && i < 80
    ensures (a + b + c + d + e)[i] == if i < 16 then a[i] else if i < 32 then b[i - 16]
            else if i < 48 then c[i - 32] else if i < 64 then d[i - 48] else e[i - 64]
  {
  }

  /** The round constants of SHA-512: 64 digits of the cube roots of the first 80 primes. */
  lemma K512IsCubeRoots(j: nat)
    requires j < 80
    ensures CubeRootBits(Prime(j), TWO_TO_64, Sha2.K512()[j])
  {
    Fifths(Sha2.K512a(), Sha2.K512b(), Sha2.K512c(), Sha2.K512d(), Sha2.K512e(), j);
    if j < 16 {
      Roots512a(j);
    } else if j < 32 {
      Roots512b(j - 16);
    } else if j < 48 {
      Roots512c(j - 32);
    } else if j < 64 {
      Roots512d(j - 48);
    } else {
      Roots512e(j - 64);
    }
  }

  /** The round constants of SHA-1: the square roots of 2, 3, 5 and 10 with 30 digits behind the point. */
  lemma Sha1KIsSquareRoots(t: nat)
    requires t < 80
    ensures var p, x, unit := [2, 3, 5, 10][t / 20], Sha1.K(t), 0x4000_0000;
            x * x <= p * unit * unit < (x + 1) * (x + 1)
  {
  }

  // Initial states

  /** The initial states of SHA-256 and SHA-512: digits of the square roots of the first eight primes. */
  lemma InitialIsSquareRoots(j: nat)
    requires j < 8
    ensures SquareRootBits(Prime(j), TWO_TO_32, Hashing.Hash.SHA256.Initial()[j])
    ensures SquareRootBits(Prime(j), TWO_TO_64, Hashing.Hash.SHA512.Initial()[j])
  {
  }

  /**
   Byte k of the initial states of MD5 and SHA-1, from its two hexadecimal digits: they count up from 0, and down
   again; in the fifth word of SHA-1 one counts down from F while the other counts up from 0.
   */
  function CountingByte(k: nat): byte
    requires k < 20
  {
    var (high, low) := if k < 8 then (2 * k, 2 * k + 1)
        else if k < 16 then (15 - 2 * (k - 8), 14 - 2 * (k - 8))
        else (15 - (k - 16), k - 16);
    (16 * high + low) as byte
  }

  function CountingBytes(j: nat): (b: seq<byte>)
    requires j < 5
    ensures |b| == 4
  {
    [CountingByte(4 * j), CountingByte(4 * j + 1), CountingByte(4 * j + 2), CountingByte(4 * j + 3)]
  }

  /** The words of these states are those bytes, the lowest byte of each word first. */
  lemma InitialCounts(h: Hashing.Hash, j: nat)
    requires (h.MD5? && j < 4) || (h.SHA1? && j < 5)
    ensures h.Initial()[j] == LittleEndian(CountingBytes(j))
  {
    FourBytes(CountingBytes(j));
  }

  // Digits of the sigma functions

  predicate Odd(p: bool, q: bool, r: bool) {
    (p != q) != r
  }

  lemma BigSigmaBit(p: Sha2.Variant, r: (nat, nat, nat), x: nat, i: nat)
    requires p.Within(r) && x < Pow2(p.W()) && i < p.W()
    ensures Bit(Sha2.BigSigma(p, r, x), i) ==
            Odd(Bit(x, (i + r.0) % p.W()), Bit(x, (i + r.1) % p.W()), Bit(x, (i + r.2) % p.W()))
  {
    ParityBit(p.W(), Rotr(p.W(), x, r.0), Rotr(p.W(), x, r.1), Rotr(p.W(), x, r.2), i);
    RotrBit(p.W(), x, r.0, i);
    RotrBit(p.W(), x, r.1, i);
    RotrBit(p.W(), x, r.2, i);
  }

  lemma SmallSigmaBit(p: Sha2.Variant, r: (nat, nat, nat), x: nat, i: nat)
    requires p.Within(r) && x < Pow2(p.W()) && i < p.W()
    ensures Bit(Sha2.SmallSigma(p, r, x), i)
            == Odd(Bit(x, (i + r.0) % p.W()), Bit(x, (i + r.1) % p.W()), Bit(x, i + r.2))
  {
    ParityBit(p.W(), Rotr(p.W(), x, r.0), Rotr(p.W(), x, r.1), Shr(x, r.2), i);
    RotrBit(p.W(), x, r.0, i);
    RotrBit(p.W(), x, r.1, i);
    ShrBit(x, r.2, i);
  }

  /** Which digits the sigma functions of SHA-256 combine into digit i. */
  lemma Sigmas256(x: nat, i: nat)
    requires x < Pow2(32) && i < 32
    ensures var p := Sha2.Sha256();
            && Bit(Sha2.BigSigma(p, p.bigA, x), i)
                == Odd(Bit(x, (i + 2) % 32), Bit(x, (i + 13) % 32), Bit(x, (i + 22) % 32))
            && Bit(Sha2.BigSigma(p, p.bigE, x), i)
                == Odd(Bit(x, (i + 6) % 32), Bit(x, (i + 11) % 32), Bit(x, (i + 25) % 32))
            && Bit(Sha2.SmallSigma(p, p.small0, x), i)
                == Odd(Bit(x, (i + 7) % 32), Bit(x, (i + 18) % 32), Bit(x, i + 3))
            && Bit(Sha2.SmallSigma(p, p.small1, x), i)
                == Odd(Bit(x, (i + 17) % 32), Bit(x, (i + 19) % 32), Bit(x, i + 10))
  {
    var p := Sha2.Sha256();
    BigSigmaBit(p, p.bigA, x, i);
    BigSigmaBit(p, p.bigE, x, i);
    SmallSigmaBit(p, p.small0, x, i);
    SmallSigmaBit(p, p.small1, x, i);
  }

  /** The same for SHA-512. */
  lemma Sigmas512(x: nat, i: nat)
    requires x < Pow2(64) && i < 64
    ensures var p := Sha2.Sha512();
            && Bit(Sha2.BigSigma(p, p.bigA, x), i)
                == Odd(Bit(x, (i + 28) % 64), Bit(x, (i + 34) % 64), Bit(x, (i + 39) % 64))
            && Bit(Sha2.BigSigma(p, p.bigE, x), i)
                == Odd(Bit(x, (i + 14) % 64), Bit(x, (i + 18) % 64), Bit(x, (i + 41) % 64))
            && Bit(Sha2.SmallSigma(p, p.small0, x), i) == Odd(Bit(x, (i + 1) % 64), Bit(x, (i + 8) % 64), Bit(x, i + 7))
            && Bit(Sha2.SmallSigma(p, p.small1, x), i)
                == Odd(Bit(x, (i + 19) % 64), Bit(x, (i + 61) % 64), Bit(x, i + 6))
  {
    var p := Sha2.Sha512();
    BigSigmaBit(p, p.bigA, x, i);
    BigSigmaBit(p, p.bigE, x, i);
    SmallSigmaBit(p, p.small0, x, i);
    SmallSigmaBit(p, p.small1, x, i);
  }
}
