/**
 RIFF files as byte sequences: little-endian integers, and chunks with an identifier, a
 size, contents and a padding byte behind contents of odd size.
 */
module Riff {
  import opened MachineInt
  import opened Loads

  /** The value a uint32_t holds after arithmetic whose exact result is x. */
  function Wrap32(x: int): (r: nat)
    ensures r < TWO_TO_32
  {
    x % TWO_TO_32
  }

  /** littleEndianBytesToUInt32. */
  function U32(b: seq<byte>): (v: nat)
    requires |b| == 4
  {
    LittleEndian(b)
  }

  /** littleEndianBytesToUInt16. */
  function U16(b: seq<byte>): (v: nat)
    requires |b| == 2
  {
    LittleEndian(b)
  }

  function Low(v: nat): byte {
    (v % 256) as byte
  }

  /** uint32ToLittleEndianBytes. */
  function Le32(v: nat): (b: seq<byte>)
    ensures |b| == 4
  {
    [Low(v), Low(v / 256), Low(v / 256 / 256), Low(v / 256 / 256 / 256)]
  }

  lemma Le32Reads(v: nat)
    requires v < TWO_TO_32
    ensures U32(Le32(v)) == v
    ensures var b := Le32(v); v == b[0] as nat + b[1] as nat * 0x100 + b[2] as nat * 0x1_0000 + b[3] as nat * 0x100_0000
  {
    FourBytes(Le32(v));
    WordDigits(v);
  }

  lemma WordDigits(v: nat)
    requires v < TWO_TO_32
    ensures v == Low(v) as nat + Low(v / 256) as nat * 0x100 + Low(v / 256 / 256) as nat * 0x1_0000
                 + Low(v / 256 / 256 / 256) as nat * 0x100_0000
  {
    var a, b, c := v / 256, v / 256 / 256, v / 256 / 256 / 256;
    assert c < 256 && b == 256 * c + Low(b) as nat;
    assert a == 256 * b + Low(a) as nat && v == 256 * a + Low(v) as nat;
  }

  lemma TwoBytes(b: seq<byte>)
    requires |b| == 2
    ensures LittleEndian(b) == b[0] as nat + b[1] as nat * 0x100
  {
    Byte256();
    assert b[..1] == [b[0]] && b[..0] == [] && [b[0]][..0] == [];
    assert LittleEndian([b[0]]) == b[0] as nat;
  }

  /** The low half of a count below 2^16 is the count. */
  lemma LowHalfReads(v: nat)
    requires v < 0x1_0000
    ensures U16(Le32(v)[..2]) == v
  {
    TwoBytes(Le32(v)[..2]);
  }

  // Chunks

  const FMT: seq<byte> := [0x66, 0x6D, 0x74, 0x20]
  const DATA: seq<byte> := [0x64, 0x61, 0x74, 0x61]
  const CUE: seq<byte> := [0x63, 0x75, 0x65, 0x20]
  const RIFF: seq<byte> := [0x52, 0x49, 0x46, 0x46]
  const WAVE: seq<byte> := [0x57, 0x41, 0x56, 0x45]

  /** The bytes are the characters. */
  predicate Spells(b: seq<byte>, characters: string) {
    |b| == |characters| && forall i :: 0 <= i < |b| ==> b[i] as int == characters[i] as int
  }

  lemma IdsSpelled()
    ensures Spells(RIFF, "RIFF") && Spells(WAVE, "WAVE")
    ensures Spells(FMT, "fmt ") && Spells(DATA, "data") && Spells(CUE, "cue ")
  {
  }

  lemma IdsDiffer()
    ensures FMT != DATA && FMT != CUE && DATA != CUE
  {
    assert FMT[0] == 0x66 && DATA[0] == 0x64 && CUE[0] == 0x63;
  }

  datatype Chunk = Chunk(id: seq<byte>, body: seq<byte>, pad: byte) {

    /** Contents the program can handle: PCM format data of at least 16 bytes, and as many cue points as are counted. */
    predicate Ok() {
      && |id| == 4 && |body| < TWO_TO_32
      && (id == FMT ==> |body| >= 16 && U16(body[..2]) == 1)
      && (id == CUE ==> |body| >= 4 && |body| == 4 + 24 * U16(body[..2]))
    }

    predicate Other() {
      id != FMT && id != DATA && id != CUE
    }

    function Bytes(): (b: seq<byte>)
      ensures |b| == |id| + 4 + |body| + |body| % 2
    {
      id + Le32(|body|) + body + Padding(|body|, pad)
    }

    /** The same chunk with a zero padding byte. */
    function Zeroed(): Chunk {
      this.(pad := 0)
    }
  }

  function Padding(size: nat, pad: byte): (b: seq<byte>)
    ensures |b| == size % 2
  {
    if size % 2 != 0 then [pad] else []
  }

  function Concat(cs: seq<Chunk>): (b: seq<byte>) {
    if |cs| == 0 then [] else cs[0].Bytes() + Concat(cs[1..])
  }

  lemma {:induction false} ConcatOf(a: seq<Chunk>, b: seq<Chunk>)
    ensures Concat(a + b) == Concat(a) + Concat(b)
    decreases |a|
  {
    if |a| == 0 {
      assert a + b == b;
    } else {
      assert (a + b)[1..] == a[1..] + b;
      ConcatOf(a[1..], b);
    }
  }

  lemma ConcatOne(c: Chunk)
    ensures Concat([c]) == c.Bytes()
  {
    assert Concat([c]) == c.Bytes() + Concat([]);
  }

  predicate AllOk(cs: seq<Chunk>) {
    forall i :: 0 <= i < |cs| ==> cs[i].Ok()
  }

  /** The chunks with an identifier, in order. */
  function Pick(cs: seq<Chunk>, id: seq<byte>): seq<Chunk> {
    if |cs| == 0 then [] else (if cs[0].id == id then [cs[0]] else []) + Pick(cs[1..], id)
  }

  /** The chunks that are neither format, sample data nor cue points, in order. */
  function Others(cs: seq<Chunk>): seq<Chunk> {
    if |cs| == 0 then [] else (if cs[0].Other() then [cs[0]] else []) + Others(cs[1..])
  }

  function ZeroedAll(cs: seq<Chunk>): (z: seq<Chunk>)
    ensures |z| == |cs| && forall i :: 0 <= i < |cs| ==> z[i] == cs[i].Zeroed()
  {
    seq(|cs|, i requires 0 <= i < |cs| => cs[i].Zeroed())
  }

  lemma {:induction false} PickOf(a: seq<Chunk>, b: seq<Chunk>, id: seq<byte>)
    ensures Pick(a + b, id) == Pick(a, id) + Pick(b, id)
    decreases |a|
  {
    if |a| == 0 {
      assert a + b == b;
    } else {
      assert (a + b)[0] == a[0] && (a + b)[1..] == a[1..] + b;
      PickOf(a[1..], b, id);
      var first := if a[0].id == id then [a[0]] else [];
      assert first + (Pick(a[1..], id) + Pick(b, id)) == (first + Pick(a[1..], id)) + Pick(b, id);
    }
  }

  lemma {:induction false} OthersOf(a: seq<Chunk>, b: seq<Chunk>)
    ensures Others(a + b) == Others(a) + Others(b)
    decreases |a|
  {
    if |a| == 0 {
      assert a + b == b;
    } else {
      assert (a + b)[0] == a[0] && (a + b)[1..] == a[1..] + b;
      OthersOf(a[1..], b);
      var first := if a[0].Other() then [a[0]] else [];
      assert first + (Others(a[1..]) + Others(b)) == (first + Others(a[1..])) + Others(b);
    }
  }

  lemma PickSingle(c: Chunk, id: seq<byte>)
    ensures Pick([c], id) == if c.id == id then [c] else []
    ensures Others([c]) == if c.Other() then [c] else []
  {
    assert [c][1..] == [];
  }

  /** Among other chunks there is nothing else to pick. */
  lemma {:induction false} PickNone(cs: seq<Chunk>, id: seq<byte>)
    requires forall i :: 0 <= i < |cs| ==> cs[i].Other()
    requires id == FMT || id == DATA || id == CUE
    ensures Pick(cs, id) == [] && Others(cs) == cs
    decreases |cs|
  {
    if |cs| > 0 {
      IdsDiffer();
      PickNone(cs[1..], id);
      assert cs == [cs[0]] + cs[1..];
    }
  }

  lemma {:induction false} OthersAre(cs: seq<Chunk>)
    ensures forall i :: 0 <= i < |Others(cs)| ==> Others(cs)[i].Other() && (AllOk(cs) ==> Others(cs)[i].Ok())
    decreases |cs|
  {
    if |cs| > 0 {
      OthersAre(cs[1..]);
      if AllOk(cs) { assert AllOk(cs[1..]); }
    }
  }
}
