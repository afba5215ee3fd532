/**
 Hashing a whole message: padding as the standards define it (sections 5.1 and 5.2 of
 FIPS 180-4, sections 3.1 and 3.2 of RFC 1321), and the streaming functions of the four
 test programs, which are the same code with other sizes and compression functions.
 */
module Hashing {
  import opened MachineInt
  import opened Cyclic
  import opened Loads
  import opened Words
  import Sha1
  import Sha2
  import Md5

  datatype Hash = MD5 | SHA1 | SHA256 | SHA512 {

    function BlockLen(): nat {
      if SHA512? then 128 else 64
    }

    /** Bytes of the length field. */
    function LengthSize(): nat {
      if SHA512? then 16 else 8
    }

    function StateLen(): nat {
      match this
      case MD5 => 4
      case SHA1 => 5
      case _ => 8
    }

    function Initial(): (s: seq<nat>)
      ensures |s| == StateLen()
    {
      match this
      case MD5 => [0x67452301, 0xEFCDAB89, 0x98BADCFE, 0x10325476]
      case SHA1 => [0x67452301, 0xEFCDAB89, 0x98BADCFE, 0x10325476, 0xC3D2E1F0]
      case SHA256 =>
        [0x6A09E667, 0xBB67AE85, 0x3C6EF372, 0xA54FF53A, 0x510E527F, 0x9B05688C, 0x1F83D9AB, 0x5BE0CD19]
      case SHA512 =>
        [0x6A09E667F3BCC908, 0xBB67AE8584CAA73B, 0x3C6EF372FE94F82B, 0xA54FF53A5F1D36F1,
         0x510E527FADE682D1, 0x9B05688C2B3E6C1F, 0x1F83D9ABFB41BD6B, 0x5BE0CD19137E2179]
    }

    function Compress(s: seq<nat>, block: seq<byte>): (r: seq<nat>)
      requires |s| == StateLen() && |block| == BlockLen()
      ensures |r| == StateLen()
    {
      match this
      case MD5 => Md5.Compress(s, block)
      case SHA1 => Sha1.Compress(s, block)
      case SHA256 => Sha2.Compress(Sha2.Sha256(), s, block)
      case SHA512 => Sha2.Compress(Sha2.Sha512(), s, block)
    }

    /** Compress every whole block of the data into the state. */
    function Fold(s: seq<nat>, data: seq<byte>): (r: seq<nat>)
      requires |s| == StateLen()
      ensures |r| == StateLen()
      decreases |data|
    {
      if |data| < BlockLen() then s else Fold(Compress(s, data[..BlockLen()]), data[BlockLen()..])
    }

    // Padding

    /** Base-256 digits of x from position i on, and the digit there. */
    function Shifted(x: nat, i: nat): nat {
      if i == 0 then x else Shifted(x, i - 1) / 256
    }

    function Digit(x: nat, i: nat): byte {
      (Shifted(x, i) % 256) as byte
    }

    /** The length in bits, as many low digits as the field holds, in the byte order of the hash. */
    function LengthField(len: nat): (f: seq<byte>)
      ensures |f| == LengthSize()
    {
      if MD5? then seq(LengthSize(), j requires 0 <= j < LengthSize() => Digit(8 * len, j))
      else seq(LengthSize(), j requires 0 <= j < LengthSize() => Digit(8 * len, LengthSize() - 1 - j))
    }

    /** Bytes of a message of len bytes behind its whole blocks. */
    function Rest(len: nat): (r: nat)
      ensures r < BlockLen()
      decreases len
    {
      if len < BlockLen() then len else Rest(len - BlockLen())
    }

    /** How many zero bytes follow the 0x80 byte, for a message of len bytes. */
    function ZeroCount(len: nat): nat {
      var rem := Rest(len);
      if rem + 1 + LengthSize() <= BlockLen() then BlockLen() - LengthSize() - 1 - rem
      else 2 * BlockLen() - LengthSize() - 1 - rem
    }

    function Padded(message: seq<byte>): seq<byte> {
      message + [0x80] + Zeros(ZeroCount(|message|)) + LengthField(|message|)
    }

    function Digest(message: seq<byte>): seq<nat> {
      Fold(Initial(), Padded(message))
    }
  }

  function Zeros(n: nat): (z: seq<byte>)
    ensures |z| == n && forall i :: 0 <= i < n ==> z[i] == 0
  {
    seq(n, _ => 0)
  }

  lemma {:induction false} RestIsMod(h: Hash, len: nat)
    ensures h.Rest(len) == len % h.BlockLen()
    decreases len
  {
    if len < h.BlockLen() {
      ModUnique(len, 0, h.BlockLen(), len);
    } else {
      RestIsMod(h, len - h.BlockLen());
      ModStep(len - h.BlockLen(), h.BlockLen(), h.BlockLen());
    }
  }

  /** The padding is the least that fills whole blocks. */
  lemma PaddingFillsBlocks(h: Hash, message: seq<byte>)
    ensures |h.Padded(message)| == |message| + 1 + h.ZeroCount(|message|) + h.LengthSize()
    ensures |h.Padded(message)| % h.BlockLen() == 0
    ensures h.ZeroCount(|message|) < h.BlockLen()
  {
    var n, b := |message|, h.BlockLen();
    RestIsMod(h, n);
    var q, rem := n / b, h.Rest(n);
    assert n == q * b + rem;
    var total := n + 1 + h.ZeroCount(n) + h.LengthSize();
    if rem + 1 + h.LengthSize() <= b {
      ModUnique(total, q + 1, b, 0);
    } else {
      ModUnique(total, q + 2, b, 0);
    }
  }

  /** Different messages have different paddings, whatever their lengths. */
  lemma PaddingInjective(h: Hash, m1: seq<byte>, m2: seq<byte>)
    requires h.Padded(m1) == h.Padded(m2)
    ensures m1 == m2
  {
    PaddingFillsBlocks(h, m1);
    PaddingFillsBlocks(h, m2);
    if |m1| < |m2| {
      MarkerPosition(h, m1, |m2|);
    } else if |m2| < |m1| {
      MarkerPosition(h, m2, |m1|);
    }
    assert m1 == h.Padded(m1)[..|m1|];
    assert m2 == h.Padded(m2)[..|m2|];
  }

  /** Between the message and the length field, only the first byte is not zero. */
  lemma MarkerPosition(h: Hash, m: seq<byte>, i: nat)
    requires |m| <= i < |m| + 1 + h.ZeroCount(|m|)
    ensures h.Padded(m)[i] == if i == |m| then 0x80 else 0
  {
  }

  /** Bit i of a string of bytes, the highest bit of each byte first. */
  function BitOf(bytes: seq<byte>, i: nat): bool
    requires i < 8 * |bytes|
  {
    Bit(bytes[i / 8] as nat, 7 - i % 8)
  }

  /** The bits of the message, a one, and zeros up to the length field. */
  lemma PaddedBits(h: Hash, message: seq<byte>, i: nat)
    requires i < 8 * (|h.Padded(message)| - h.LengthSize())
    ensures BitOf(h.Padded(message), i) ==
            if i < 8 * |message| then BitOf(message, i) else i == 8 * |message|
  {
    if i >= 8 * |message| {
      MarkerPosition(h, message, i / 8);
      MarkerBits(7 - i % 8);
      ZeroBits(7 - i % 8);
    }
  }

  lemma MarkerBits(k: nat)
    requires k < 8
    ensures Bit(0x80, k) == (k == 7)
  {
    assert !Bit(0x80, 0) && !Bit(0x80, 1) && !Bit(0x80, 2) && !Bit(0x80, 3);
    assert !Bit(0x80, 4) && !Bit(0x80, 5) && !Bit(0x80, 6) && Bit(0x80, 7);
  }

  lemma {:induction false} ZeroBits(k: nat)
    ensures !Bit(0, k)
    decreases k
  {
    if k > 0 {
      ZeroBits(k - 1);
    }
  }

  /** So many zeros that the bits before the length field are 448 modulo 512, or 896 modulo 1024. */
  lemma BitsBeforeLength(h: Hash, message: seq<byte>)
    ensures var bits := 8 * (|h.Padded(message)| - h.LengthSize());
            && bits == 8 * |message| + 1 + (8 * h.ZeroCount(|message|) + 7)
            && if h.SHA512? then bits % 1024 == 896 && 8 * h.LengthSize() == 128
               else bits % 512 == 448 && 8 * h.LengthSize() == 64
  {
    PaddingFillsBlocks(h, message);
    var total, b := |h.Padded(message)|, h.BlockLen();
    var q := total / b;
    assert total == q * b;
    assert 8 * (q * b) == q * (8 * b) && q * (8 * b) == (q - 1) * (8 * b) + 8 * b;
    ModUnique(8 * (total - h.LengthSize()), q - 1, 8 * b, 8 * (b - h.LengthSize()));
  }

  /** The length field is the bit length, modulo what fits the field. */
  lemma LengthFieldEncodes(h: Hash, len: nat)
    ensures (if h.MD5? then LittleEndian(h.LengthField(len)) else BigEndian(h.LengthField(len)))
         == (8 * len) % Pow2(8 * h.LengthSize())
  {
    var f := h.LengthField(len);
    if h.MD5? {
      LowDigitsLittle(h, 8 * len, f, |f|);
      assert f[..|f|] == f;
    } else {
      LowDigitsBig(h, 8 * len, f, |f|);
      assert f[0..] == f;
    }
  }

  lemma {:induction false} LowDigitsLittle(h: Hash, x: nat, f: seq<byte>, j: nat)
    requires j <= |f| && forall i :: 0 <= i < |f| ==> f[i] == h.Digit(x, i)
    ensures x == h.Shifted(x, j) * Pow2(8 * j) + LittleEndian(f[..j])
    ensures LittleEndian(f[..j]) == x % Pow2(8 * j)
    decreases j
  {
    LittleEndianBound(f[..j]);
    if j > 0 {
      LowDigitsLittle(h, x, f, j - 1);
      BigEndianPrefix(f, j);
      SplitDigit(h.Shifted(x, j - 1), Pow2(8 * (j - 1)));
      ByteScale(8 * (j - 1));
    } else {
      assert x * Pow2(0) == x;
    }
    ModUnique(x, h.Shifted(x, j), Pow2(8 * j), LittleEndian(f[..j]));
  }

  lemma SplitDigit(y: nat, p: nat)
    ensures y * p == (y / 256) * (256 * p) + (y % 256) * p
  {
    assert y == (y / 256) * 256 + y % 256;
    assert ((y / 256) * 256) * p == (y / 256) * (256 * p);
    assert y * p == ((y / 256) * 256) * p + (y % 256) * p;
  }

  /** The last j bytes of a big-endian field are its j low digits. */
  lemma {:induction false} LowDigitsBig(h: Hash, x: nat, f: seq<byte>, j: nat)
    requires j <= |f| && forall i :: 0 <= i < |f| ==> f[i] == h.Digit(x, |f| - 1 - i)
    ensures x == h.Shifted(x, j) * Pow2(8 * j) + BigEndian(f[|f| - j..])
    ensures BigEndian(f[|f| - j..]) == x % Pow2(8 * j)
    decreases j
  {
    BigEndianBound(f[|f| - j..]);
    if j > 0 {
      LowDigitsBig(h, x, f, j - 1);
      assert f[|f| - j..] == [f[|f| - j]] + f[|f| - (j - 1)..];
      TopByteFirst(f[|f| - j], f[|f| - (j - 1)..]);
      SplitDigit(h.Shifted(x, j - 1), Pow2(8 * (j - 1)));
      ByteScale(8 * (j - 1));
    } else {
      assert x * Pow2(0) == x;
    }
    ModUnique(x, h.Shifted(x, j), Pow2(8 * j), BigEndian(f[|f| - j..]));
  }

  lemma Distribute(x: nat, p: nat, y: nat)
    ensures (x * p + y) * 256 == x * (256 * p) + y * 256
  {
  }

  lemma {:induction false} TopByteFirst(b: byte, rest: seq<byte>)
    ensures BigEndian([b] + rest) == b as nat * Pow2(8 * |rest|) + BigEndian(rest)
    decreases |rest|
  {
    var all := [b] + rest;
    if |rest| == 0 {
      assert all[..0] == [];
    } else {
      var n := |rest| - 1;
      assert all[..|all| - 1] == [b] + rest[..n];
      TopByteFirst(b, rest[..n]);
      ByteScale(8 * n);
      Distribute(b as nat, Pow2(8 * n), BigEndian(rest[..n]));
    }
  }

  // The streaming functions

  method CompressInPlace(h: Hash, state: array<nat>, block: seq<byte>)
    requires state.Length == h.StateLen() && |block| == h.BlockLen()
    modifies state
    ensures state[..] == h.Compress(old(state[..]), block)
  {
    match h
    case MD5 => Md5.CompressInPlace(state, block);
    case SHA1 => Sha1.CompressFast(state, block);
    case SHA256 => Sha2.CompressInPlace(Sha2.Sha256(), state, block);
    case SHA512 => Sha2.CompressInPlace(Sha2.Sha512(), state, block);
  }

  /** The message part, the marker byte and zeros up to the end of the block. */
  function FirstTailBlock(h: Hash, rest: seq<byte>): (b: seq<byte>)
    requires |rest| < h.BlockLen()
    ensures |b| == h.BlockLen()
  {
    rest + [0x80] + Zeros(h.BlockLen() - |rest| - 1)
  }

  /** What the padded message looks like behind the whole blocks of the message. */
  lemma TailBlocks(h: Hash, message: seq<byte>, off: nat)
    requires off <= |message| < off + h.BlockLen() && h.Rest(|message| - off) == h.Rest(|message|)
    ensures var rest, at := message[off..], h.BlockLen() - h.LengthSize();
            h.Padded(message)[off..] ==
              if |rest| + 1 <= at then Patch(FirstTailBlock(h, rest), at, h.LengthField(|message|))
              else FirstTailBlock(h, rest) + Patch(Zeros(h.BlockLen()), at, h.LengthField(|message|))
  {
    var rest, n := message[off..], |message|;
    var p := h.Padded(message);
    assert p[off..] == rest + [0x80] + Zeros(h.ZeroCount(n)) + h.LengthField(n);
    PaddedTail(h, rest, h.ZeroCount(n), h.LengthField(n));
  }

  lemma PaddedTail(h: Hash, rest: seq<byte>, zeros: nat, field: seq<byte>)
    requires |rest| < h.BlockLen() && |field| == h.LengthSize()
    requires |rest| + 1 + zeros + |field| == (if |rest| + 1 + |field| <= h.BlockLen() then 1 else 2) * h.BlockLen()
    ensures var at := h.BlockLen() - h.LengthSize();
            rest + [0x80] + Zeros(zeros) + field ==
              if |rest| + 1 <= at then Patch(FirstTailBlock(h, rest), at, field)
              else FirstTailBlock(h, rest) + Patch(Zeros(h.BlockLen()), at, field)
  {
  }

  lemma FoldOne(h: Hash, s: seq<nat>, block: seq<byte>, more: seq<byte>)
    requires |s| == h.StateLen() && |block| == h.BlockLen()
    ensures h.Fold(s, block + more) == h.Fold(h.Compress(s, block), more)
    ensures h.Fold(s, block) == h.Compress(s, block)
  {
    assert (block + more)[..h.BlockLen()] == block && (block + more)[h.BlockLen()..] == more;
    assert block[..h.BlockLen()] == block && block[h.BlockLen()..] == [];
  }

  /** Where digit j of the bit length goes. */
  function Place(h: Hash, j: nat): (x: nat)
    requires j < h.LengthSize()
    ensures h.BlockLen() - h.LengthSize() <= x < h.BlockLen()
  {
    if h.MD5? then h.BlockLen() - h.LengthSize() + j else h.BlockLen() - 1 - j
  }

  /** The first i digits are stored, and the bytes before the field are as before. */
  ghost predicate Stored(h: Hash, block: seq<byte>, before: seq<byte>, length: nat, i: nat) {
    && |block| == |before| == h.BlockLen() && i <= h.LengthSize()
    && block[..h.BlockLen() - h.LengthSize()] == before[..h.BlockLen() - h.LengthSize()]
    && forall j :: 0 <= j < i ==> block[Place(h, j)] == h.Digit(8 * length, j)
  }

  /** Store the bit length: the low five bits shifted up first, then byte after byte. */
  method StoreLength(h: Hash, block: array<byte>, length: nat)
    requires block.Length == h.BlockLen()
    modifies block
    ensures block[..] == Patch(old(block[..]), h.BlockLen() - h.LengthSize(), h.LengthField(length))
  {
    ghost var before := block[..];
    var len := length;
    FirstDigit(h, length);
    StoreDigit(h, block, before, length, 0, ((len % 0x20) * 8) as byte);
    len := len / 0x20;
    for i := 1 to h.LengthSize()
      invariant len == h.Shifted(8 * length, i)
      invariant Stored(h, block[..], before, length, i)
    {
      StoreDigit(h, block, before, length, i, (len % 0x100) as byte);
      len := len / 0x100;
    }
    FieldFromDigits(h, block[..], before, length);
  }

  lemma FirstDigit(h: Hash, length: nat)
    ensures h.Digit(8 * length, 0) == ((length % 0x20) * 8) as byte
    ensures h.Shifted(8 * length, 1) == length / 0x20
  {
    var q, r := length / 0x20, length % 0x20;
    assert 8 * length == q * 0x100 + r * 8;
    ModUnique(8 * length, q, 0x100, r * 8);
    assert h.Shifted(8 * length, 0) == 8 * length;
  }

  method StoreDigit(h: Hash, block: array<byte>, ghost before: seq<byte>, ghost length: nat, i: nat, digit: byte)
    requires i < h.LengthSize() && block.Length == h.BlockLen() && digit == h.Digit(8 * length, i)
    requires Stored(h, block[..], before, length, i)
    modifies block
    ensures Stored(h, block[..], before, length, i + 1)
  {
    block[Place(h, i)] := digit;
  }

  lemma FieldFromDigits(h: Hash, block: seq<byte>, before: seq<byte>, length: nat)
    requires Stored(h, block, before, length, h.LengthSize())
    ensures block == Patch(before, h.BlockLen() - h.LengthSize(), h.LengthField(length))
  {
    var start, f := h.BlockLen() - h.LengthSize(), h.LengthField(length);
    forall x | 0 <= x < h.LengthSize() ensures block[start + x] == f[x] {
      var j := if h.MD5? then x else h.LengthSize() - 1 - x;
      assert block[Place(h, j)] == h.Digit(8 * length, j);
    }
    assert block[start..] == f;
    assert block == block[..start] + block[start..];
  }

  /** The offsets behind which whole blocks leave as much of len bytes as at the start. */
  ghost function WholeBlocks(h: Hash, len: nat): iset<nat> {
    iset off: nat | RestAt(h, len, off)
  }

  ghost predicate RestAt(h: Hash, len: nat, off: nat) {
    off <= len && h.Rest(len - off) == h.Rest(len)
  }

  /** The first off bytes are whole blocks, and compressing the others into s completes the digest. */
  ghost predicate Absorbed(h: Hash, message: seq<byte>, digest: seq<nat>, off: nat, s: seq<nat>) {
    && off <= |message| && |s| == h.StateLen()
    && off in WholeBlocks(h, |message|)
    && digest == h.Fold(s, h.Padded(message)[off..])
  }

  /** The whole blocks of the message, compressed where they lie. */
  method AbsorbBlocks(h: Hash, message: seq<byte>, hash: array<nat>, ghost digest: seq<nat>) returns (off: nat)
    requires hash.Length == h.StateLen() && Absorbed(h, message, digest, 0, hash[..])
    modifies hash
    ensures |message| < off + h.BlockLen()
    ensures Absorbed(h, message, digest, off, hash[..])
  {
    off := 0;
    while |message| - off >= h.BlockLen()
      invariant off <= |message|
      invariant Absorbed(h, message, digest, off, hash[..])
      decreases |message| - off
    {
      off := AbsorbOne(h, message, off, hash, digest);
    }
  }

  lemma NothingAbsorbed(h: Hash, message: seq<byte>, s: seq<nat>)
    requires |s| == h.StateLen()
    ensures Absorbed(h, message, h.Fold(s, h.Padded(message)), 0, s)
  {
    assert h.Padded(message)[0..] == h.Padded(message);
  }

  method AbsorbOne(h: Hash, message: seq<byte>, off: nat, hash: array<nat>, ghost digest: seq<nat>)
    returns (next: nat)
    requires off + h.BlockLen() <= |message| && hash.Length == h.StateLen()
    requires Absorbed(h, message, digest, off, hash[..])
    modifies hash
    ensures next == off + h.BlockLen() && Absorbed(h, message, digest, next, hash[..])
  {
    next := off + h.BlockLen();
    ghost var s := hash[..];
    CompressInPlace(h, hash, message[off..next]);
    AbsorbedNext(h, message, digest, off, next, s, hash[..]);
  }

  lemma AbsorbedNext(h: Hash, message: seq<byte>, digest: seq<nat>, off: nat, next: nat, s: seq<nat>, s': seq<nat>)
    requires next == off + h.BlockLen() <= |message| && |s| == |s'| == h.StateLen()
    requires Absorbed(h, message, digest, off, s)
    requires s' == h.Compress(s, message[off..next])
    ensures Absorbed(h, message, digest, next, s')
  {
    FoldAhead(h, message, off, next, s, s');
    RestStep(h, |message|, off, next);
  }

  lemma FoldAhead(h: Hash, message: seq<byte>, off: nat, next: nat, s: seq<nat>, s': seq<nat>)
    requires next == off + h.BlockLen() <= |message| && |s| == |s'| == h.StateLen()
    requires s' == h.Compress(s, message[off..next])
    ensures next <= |h.Padded(message)| && h.Fold(s, h.Padded(message)[off..]) == h.Fold(s', h.Padded(message)[next..])
  {
    PaddedAhead(h, message, off, next);
    FoldsOver(h, s, h.Padded(message)[off..], message[off..next], h.Padded(message)[next..], s');
  }

  lemma RestStep(h: Hash, len: nat, off: nat, next: nat)
    requires off + h.BlockLen() == next <= len && off in WholeBlocks(h, len)
    ensures next in WholeBlocks(h, len)
  {
    assert RestAt(h, len, off);
    assert h.Rest(len - off) == h.Rest(len - next);
  }

  /** Folding data that starts with a block is compressing the block and folding the rest. */
  lemma FoldsOver(h: Hash, s: seq<nat>, data: seq<byte>, block: seq<byte>, rest: seq<byte>, s': seq<nat>)
    requires |s| == |s'| == h.StateLen() && |block| == h.BlockLen()
    requires data == block + rest && s' == h.Compress(s, block)
    ensures h.Fold(s, data) == h.Fold(s', rest)
  {
    FoldOne(h, s, block, rest);
  }

  lemma PaddedAhead(h: Hash, message: seq<byte>, off: nat, next: nat)
    requires off <= next <= |message|
    ensures next <= |h.Padded(message)| && h.Padded(message)[off..] == message[off..next] + h.Padded(message)[next..]
  {
    Ahead(message, [0x80] + Zeros(h.ZeroCount(|message|)) + h.LengthField(|message|), h.Padded(message), off, next);
  }

  lemma Ahead(front: seq<byte>, behind: seq<byte>, all: seq<byte>, off: nat, next: nat)
    requires off <= next <= |front| && all == front + behind
    ensures all[off..] == front[off..next] + all[next..]
  {
  }

  /** The rest of the message, the padding and the length, in one block or two. */
  method AbsorbTail(h: Hash, message: seq<byte>, off: nat, hash: array<nat>)
    requires hash.Length == h.StateLen()
    requires off <= |message| < off + h.BlockLen() && off in WholeBlocks(h, |message|)
    modifies hash
    ensures hash[..] == h.Fold(old(hash[..]), h.Padded(message)[off..])
  {
    TailFolds(h, hash[..], message, off);
    CompressTail(h, message[off..], |message|, hash);
  }

  /** The compression of one or two tail blocks. */
  ghost function TailFold(h: Hash, s: seq<nat>, rest: seq<byte>, length: nat): (r: seq<nat>)
    requires |s| == h.StateLen() && |rest| < h.BlockLen()
  {
    var at, field := h.BlockLen() - h.LengthSize(), h.LengthField(length);
    if |rest| + 1 <= at then h.Compress(s, Patch(FirstTailBlock(h, rest), at, field))
    else h.Compress(h.Compress(s, FirstTailBlock(h, rest)), Patch(Zeros(h.BlockLen()), at, field))
  }

  method CompressTail(h: Hash, rest: seq<byte>, length: nat, hash: array<nat>)
    requires hash.Length == h.StateLen() && |rest| < h.BlockLen()
    modifies hash
    ensures hash[..] == TailFold(h, old(hash[..]), rest, length)
  {
    var block, rem := StartTail(h, rest);
    if h.BlockLen() - rem < h.LengthSize() {
      CompressAndClear(h, hash, block);
    }
    CompressLast(h, length, hash, block);
  }

  method StartTail(h: Hash, rest: seq<byte>) returns (block: array<byte>, rem: nat)
    requires |rest| < h.BlockLen()
    ensures fresh(block) && block.Length == h.BlockLen()
    ensures rem == |rest| + 1 && block[..] == FirstTailBlock(h, rest)
  {
    block := new byte[h.BlockLen()](_ => 0);
    assert block[..] == Zeros(h.BlockLen());
    rem := MarkEnd(h, block, rest);
  }

  method CompressLast(h: Hash, length: nat, hash: array<nat>, block: array<byte>)
    requires hash.Length == h.StateLen() && block.Length == h.BlockLen()
    modifies hash, block
    ensures hash[..] == h.Compress(old(hash[..]),
            Patch(old(block[..]), h.BlockLen() - h.LengthSize(), h.LengthField(length)))
  {
    StoreLength(h, block, length);
    CompressInPlace(h, hash, block[..]);
  }

  lemma FoldBlock(h: Hash, s: seq<nat>, data: seq<byte>, s': seq<nat>)
    requires |s| == h.StateLen() && |data| == h.BlockLen() && s' == h.Compress(s, data)
    ensures h.Fold(s, data) == s'
  {
    FoldOne(h, s, data, []);
  }

  lemma FoldTwo(h: Hash, s: seq<nat>, data: seq<byte>, first: seq<byte>, second: seq<byte>, s': seq<nat>)
    requires |s| == h.StateLen() && |first| == |second| == h.BlockLen() && data == first + second
    requires s' == h.Compress(h.Compress(s, first), second)
    ensures h.Fold(s, data) == s'
  {
    FoldOne(h, s, first, second);
    FoldBlock(h, h.Compress(s, first), second, s');
  }

  /** Folding the tail is compressing one block, or two. */
  lemma TailFolds(h: Hash, s: seq<nat>, message: seq<byte>, off: nat)
    requires |s| == h.StateLen()
    requires off <= |message| < off + h.BlockLen() && off in WholeBlocks(h, |message|)
    ensures h.Fold(s, h.Padded(message)[off..]) == TailFold(h, s, message[off..], |message|)
  {
    TailBlocks(h, message, off);
    FoldsTail(h, s, message[off..], |message|, h.Padded(message)[off..]);
  }

  lemma FoldsTail(h: Hash, s: seq<nat>, rest: seq<byte>, length: nat, data: seq<byte>)
    requires |s| == h.StateLen() && |rest| < h.BlockLen()
    requires var at, field := h.BlockLen() - h.LengthSize(), h.LengthField(length);
             data == if |rest| + 1 <= at then Patch(FirstTailBlock(h, rest), at, field)
                     else FirstTailBlock(h, rest) + Patch(Zeros(h.BlockLen()), at, field)
    ensures h.Fold(s, data) == TailFold(h, s, rest, length)
  {
    if |rest| + 1 <= h.BlockLen() - h.LengthSize() {
      FoldsOneBlock(h, s, rest, length, data);
    } else {
      FoldsTwoBlocks(h, s, rest, length, data);
    }
  }

  lemma FoldsOneBlock(h: Hash, s: seq<nat>, rest: seq<byte>, length: nat, data: seq<byte>)
    requires |s| == h.StateLen() && |rest| + 1 <= h.BlockLen() - h.LengthSize()
    requires data == Patch(FirstTailBlock(h, rest), h.BlockLen() - h.LengthSize(), h.LengthField(length))
    ensures h.Fold(s, data) == TailFold(h, s, rest, length)
  {
    FoldBlock(h, s, data, TailFold(h, s, rest, length));
  }

  lemma FoldsTwoBlocks(h: Hash, s: seq<nat>, rest: seq<byte>, length: nat, data: seq<byte>)
    requires |s| == h.StateLen() && h.BlockLen() - h.LengthSize() < |rest| + 1 <= h.BlockLen()
    requires var at, field := h.BlockLen() - h.LengthSize(), h.LengthField(length);
             data == FirstTailBlock(h, rest) + Patch(Zeros(h.BlockLen()), at, field)
    ensures h.Fold(s, data) == TailFold(h, s, rest, length)
  {
    var second := Patch(Zeros(h.BlockLen()), h.BlockLen() - h.LengthSize(), h.LengthField(length));
    FoldTwo(h, s, data, FirstTailBlock(h, rest), second, TailFold(h, s, rest, length));
  }

  /** The last message bytes and the marker go into a block of zeros. */
  method MarkEnd(h: Hash, block: array<byte>, rest: seq<byte>) returns (rem: nat)
    requires block.Length == h.BlockLen() && |rest| < h.BlockLen() && block[..] == Zeros(h.BlockLen())
    modifies block
    ensures rem == |rest| + 1 && block[..] == FirstTailBlock(h, rest)
  {
    rem := |rest|;
    Memcpy(block, 0, rest);
    block[rem] := 0x80;
    rem := rem + 1;
  }

  /** A full tail block is compressed, and the block starts again from zeros. */
  method CompressAndClear(h: Hash, hash: array<nat>, block: array<byte>)
    requires hash.Length == h.StateLen() && block.Length == h.BlockLen()
    modifies hash, block
    ensures hash[..] == h.Compress(old(hash[..]), old(block[..])) && block[..] == Zeros(h.BlockLen())
  {
    CompressInPlace(h, hash, block[..]);
    Clear(block);
  }

  method Clear(block: array<byte>)
    modifies block
    ensures block[..] == Zeros(block.Length)
  {
    Memcpy(block, 0, Zeros(block.Length));
  }

  /** md5_hash, sha1_hash, sha256_hash and sha512_hash: the digest of the standard, for every message. */
  method HashMessage(h: Hash, message: seq<byte>, hash: array<nat>)
    requires |message| < TWO_TO_64 && hash.Length == h.StateLen()
    modifies hash
    ensures hash[..] == h.Digest(message)
  {
    for j := 0 to h.StateLen()
      invariant forall k :: 0 <= k < j ==> hash[k] == h.Initial()[k]
    {
      hash[j] := h.Initial()[j];
    }
    assert hash[..] == h.Initial();
    NothingAbsorbed(h, message, hash[..]);
    var off := AbsorbBlocks(h, message, hash, h.Digest(message));
    AbsorbTail(h, message, off, hash);
  }
}
