/**
 The chunk loop of addMarkersToWaveFile: what it notes of a file, and what it notes of a
 file made of well-formed chunks.
 */
module WavScan {
  import opened MachineInt
  import opened Cyclic
  import opened Options
  import opened Riff

  const MAX_OTHER_CHUNKS: nat := 256

  /** A range of the input file. */
  datatype Location = Location(start: nat, size: nat) {
    predicate Inside(file: seq<byte>) {
      start + size <= |file|
    }

    /** The range as it is copied to the output, with a zero byte behind odd sizes. */
    function Copied(file: seq<byte>): seq<byte>
      requires Inside(file)
    {
      file[start..start + size] + Padding(size, 0)
    }
  }

  /** What the loop has noted: the format structure, its extra bytes, the sample data chunk, the other chunks. */
  datatype Notes = Notes(format: Option<seq<byte>>, extra: Location, data: Location, others: seq<Location>)

  const NOTHING: Notes := Notes(None, Location(0, 0), Location(0, 0), [])

  /** How the loop ends; CutShort is a decision on bytes that the file does not have. */
  datatype Scan = Scanned(notes: Notes) | Refused | CutShort

  /** The next four bytes of the file, zero where the file has ended. */
  function NextWord(file: seq<byte>, pos: nat): (b: seq<byte>)
    requires pos <= |file|
    ensures |b| == 4
    ensures forall i :: 0 <= i < 4 ==> b[i] == if pos + i < |file| then file[pos + i] else 0
  {
    (file[pos..] + [0, 0, 0, 0])[..4]
  }

  /** One round of the loop at pos: where the next round starts and what has been noted, or how the loop ends. */
  datatype Round = Go(pos: nat, notes: Notes) | End(scan: Scan)

  function FormatRound(file: seq<byte>, pos: nat, n: Notes): Round {
    if pos + 24 > |file| then End(CutShort)
    else if U16(file[pos + 8..pos + 10]) != 1 then End(Refused)
    else
      var format := Some(file[pos..pos + 24]);
      var extra := Wrap32(U32(file[pos + 4..pos + 8]) - 16);
      if extra > 0 then Go(pos + 24 + extra + extra % 2, n.(format := format, extra := Location(pos + 24, extra)))
      else Go(pos + 24, n.(format := format))
  }

  function DataRound(file: seq<byte>, pos: nat, n: Notes): Round {
    if pos + 8 > |file| then End(CutShort)
    else
      var size := U32(file[pos + 4..pos + 8]);
      Go(pos + 8 + size + size % 2, n.(data := Location(pos, 8 + size)))
  }

  function CueRound(file: seq<byte>, pos: nat, n: Notes): Round {
    if pos + 12 > |file| then End(Scanned(n))
    else Go(pos + 12 + 24 * U16(file[pos + 8..pos + 10]), n)
  }

  function OtherRound(file: seq<byte>, pos: nat, n: Notes): Round
    requires pos + 4 <= |file|
  {
    if |n.others| >= MAX_OTHER_CHUNKS then End(Refused)
    else
      var size := U32(NextWord(file, pos + 4));
      Go(pos + 8 + size + size % 2, n.(others := n.others + [Location(pos, 8 + size)]))
  }

  function RoundAt(file: seq<byte>, pos: nat, n: Notes): (r: Round)
    ensures r.Go? ==> pos < r.pos && pos + 4 <= |file|
  {
    if pos + 4 > |file| then End(Scanned(n))
    else
      var id := file[pos..pos + 4];
      if id == FMT then FormatRound(file, pos, n)
      else if id == DATA then DataRound(file, pos, n)
      else if id == CUE then CueRound(file, pos, n)
      else OtherRound(file, pos, n)
  }

  /** The loop from pos on. */
  function ScanFrom(file: seq<byte>, pos: nat, n: Notes): Scan
    decreases |file| - pos
  {
    match RoundAt(file, pos, n)
    case End(scan) => scan
    case Go(pos', n') => ScanFrom(file, pos', n')
  }

  /** The format branch of the loop: the structure, and where its extra bytes are. */
  method PassFormat(file: seq<byte>, start: nat, n: Notes) returns (round: Round)
    ensures round == FormatRound(file, start, n)
  {
    var pos, notes := start, n;
    if pos + 24 > |file| { return End(CutShort); }
    if U16(file[pos + 8..pos + 10]) != 1 { return End(Refused); }
    notes := notes.(format := Some(file[pos..pos + 24]));
    var extraFormatBytesCount := Wrap32(U32(file[pos + 4..pos + 8]) - 16);
    pos := pos + 24;
    if extraFormatBytesCount > 0 {
      notes := notes.(extra := Location(pos, extraFormatBytesCount));
      pos := pos + extraFormatBytesCount;
      if extraFormatBytesCount % 2 != 0 { pos := pos + 1; }
    }
    return Go(pos, notes);
  }

  /** The branches for the other kinds of chunks. */
  method PassOther(file: seq<byte>, start: nat, n: Notes) returns (round: Round)
    requires start + 4 <= |file| && file[start..start + 4] != FMT
    ensures round == RoundAt(file, start, n)
  {
    var pos, notes, id := start, n, file[start..start + 4];
    if id == DATA {
      if pos + 8 > |file| { return End(CutShort); }
      var sampleDataSize := U32(file[pos + 4..pos + 8]);
      notes := notes.(data := Location(pos, 8 + sampleDataSize));
      pos := pos + 8 + sampleDataSize;
      if sampleDataSize % 2 != 0 { pos := pos + 1; }
    } else if id == CUE {
      if pos + 12 > |file| { return End(Scanned(notes)); }
      pos := pos + 12 + 24 * U16(file[pos + 8..pos + 10]);
    } else {
      if |notes.others| >= MAX_OTHER_CHUNKS { return End(Refused); }
      var chunkDataSize := U32(NextWord(file, pos + 4));
      notes := notes.(others := notes.others + [Location(pos, 8 + chunkDataSize)]);
      pos := pos + 8 + chunkDataSize;
      if chunkDataSize % 2 != 0 { pos := pos + 1; }
    }
    return Go(pos, notes);
  }

  /** The chunk loop of addMarkersToWaveFile. */
  method ScanChunks(file: seq<byte>) returns (scan: Scan)
    ensures scan == ScanFrom(file, 12, NOTHING)
  {
    var pos, notes := 12, NOTHING;
    while pos + 4 <= |file|
      invariant ScanFrom(file, pos, notes) == ScanFrom(file, 12, NOTHING)
      decreases |file| - pos
    {
      var round;
      if file[pos..pos + 4] == FMT {
        round := PassFormat(file, pos, notes);
      } else {
        round := PassOther(file, pos, notes);
      }
      assert round == RoundAt(file, pos, notes);
      match round
      case End(result) => return result;
      case Go(next, noted) => pos, notes := next, noted;
    }
    return Scanned(notes);
  }

  // Files made of chunks

  /** The file continues with the given bytes at pos. */
  predicate Has(file: seq<byte>, pos: nat, bytes: seq<byte>) {
    pos + |bytes| <= |file| && file[pos..pos + |bytes|] == bytes
  }

  lemma HasBoth(file: seq<byte>, pos: nat, a: seq<byte>, b: seq<byte>)
    requires Has(file, pos, a + b)
    ensures Has(file, pos, a) && Has(file, pos + |a|, b)
  {
    assert a == (a + b)[..|a|] && b == (a + b)[|a|..];
    assert file[pos..pos + |a|] == file[pos..pos + |a + b|][..|a|];
    assert file[pos + |a|..pos + |a| + |b|] == file[pos..pos + |a + b|][|a|..];
  }

  /** The parts of a chunk at pos. */
  lemma HasParts(file: seq<byte>, pos: nat, c: Chunk)
    requires Has(file, pos, c.Bytes()) && |c.id| == 4
    ensures Has(file, pos, c.id) && Has(file, pos + 4, Le32(|c.body|)) && Has(file, pos + 8, c.body)
  {
    assert c.Bytes() == c.id + (Le32(|c.body|) + (c.body + Padding(|c.body|, c.pad)));
    HasBoth(file, pos, c.id, Le32(|c.body|) + (c.body + Padding(|c.body|, c.pad)));
    HasBoth(file, pos + 4, Le32(|c.body|), c.body + Padding(|c.body|, c.pad));
    HasBoth(file, pos + 8, c.body, Padding(|c.body|, c.pad));
  }

  /** What the loop notes of a chunk at pos. */
  function Noted(n: Notes, c: Chunk, pos: nat): Notes
    requires c.Ok()
  {
    if c.id == FMT then
      var format := Some(FMT + Le32(|c.body|) + c.body[..16]);
      if |c.body| > 16 then n.(format := format, extra := Location(pos + 24, |c.body| - 16)) else n.(format := format)
    else if c.id == DATA then n.(data := Location(pos, 8 + |c.body|))
    else if c.id == CUE then n
    else n.(others := n.others + [Location(pos, 8 + |c.body|)])
  }

  /** At a well-formed chunk, a round goes to the end of it. */
  lemma ChunkRound(file: seq<byte>, pos: nat, n: Notes, c: Chunk)
    requires Has(file, pos, c.Bytes()) && c.Ok()
    requires c.Other() ==> |n.others| < MAX_OTHER_CHUNKS
    ensures RoundAt(file, pos, n) == Go(pos + |c.Bytes()|, Noted(n, c, pos))
  {
    HasParts(file, pos, c);
    IdsDiffer();
    assert file[pos..pos + 4] == c.id;
    if c.id == FMT {
      FormatChunkRound(file, pos, n, c);
    } else if c.id == DATA {
      DataChunkRound(file, pos, n, c);
    } else if c.id == CUE {
      CueChunkRound(file, pos, n, c);
    } else {
      OtherChunkRound(file, pos, n, c);
    }
  }

  lemma DataChunkRound(file: seq<byte>, pos: nat, n: Notes, c: Chunk)
    requires c.Ok() && c.id == DATA && Has(file, pos, c.id) && Has(file, pos + 4, Le32(|c.body|))
    ensures FMT != DATA && DataRound(file, pos, n) == Go(pos + |c.Bytes()|, Noted(n, c, pos))
  {
    IdsDiffer();
    Le32Reads(|c.body|);
  }

  lemma CueChunkRound(file: seq<byte>, pos: nat, n: Notes, c: Chunk)
    requires c.Ok() && c.id == CUE && Has(file, pos, c.id) && Has(file, pos + 8, c.body)
    ensures CueRound(file, pos, n) == Go(pos + |c.Bytes()|, Noted(n, c, pos))
  {
    IdsDiffer();
    assert file[pos + 8..pos + 10] == file[pos + 8..pos + 8 + |c.body|][..2];
  }

  lemma OtherChunkRound(file: seq<byte>, pos: nat, n: Notes, c: Chunk)
    requires c.Ok() && c.Other() && |n.others| < MAX_OTHER_CHUNKS
    requires Has(file, pos, c.id) && Has(file, pos + 4, Le32(|c.body|))
    ensures OtherRound(file, pos, n) == Go(pos + |c.Bytes()|, Noted(n, c, pos))
  {
    Le32Reads(|c.body|);
    assert NextWord(file, pos + 4) == file[pos + 4..pos + 8];
  }

  lemma FormatChunkRound(file: seq<byte>, pos: nat, n: Notes, c: Chunk)
    requires c.Ok() && c.id == FMT
    requires Has(file, pos, c.id) && Has(file, pos + 4, Le32(|c.body|)) && Has(file, pos + 8, c.body)
    ensures FormatRound(file, pos, n) == Go(pos + |c.Bytes()|, Noted(n, c, pos))
  {
    Le32Reads(|c.body|);
    FormatFields(file, pos, Le32(|c.body|), c.body);
    SizesOfFormat(|c.body|);
  }

  lemma SizesOfFormat(size: nat)
    requires 16 <= size < TWO_TO_32
    ensures Wrap32(size - 16) == size - 16 && (size - 16) % 2 == size % 2
  {
  }

  lemma FormatFields(file: seq<byte>, pos: nat, size: seq<byte>, body: seq<byte>)
    requires |size| == 4 && |body| >= 16 && Has(file, pos, FMT) && Has(file, pos + 4, size) && Has(file, pos + 8, body)
    ensures file[pos + 8..pos + 10] == body[..2] && file[pos + 4..pos + 8] == size
    ensures file[pos..pos + 24] == FMT + size + body[..16]
  {
    var all := file[pos + 8..pos + 8 + |body|];
    assert file[pos + 8..pos + 10] == all[..2];
    assert file[pos + 8..pos + 24] == all[..16];
    assert file[pos..pos + 24] == file[pos..pos + 4] + file[pos + 4..pos + 8] + file[pos + 8..pos + 24];
  }

  /** What the loop notes of a list of chunks from pos on. */
  function NotedAll(n: Notes, cs: seq<Chunk>, pos: nat): Notes
    requires AllOk(cs)
    decreases |cs|
  {
    if |cs| == 0 then n
    else NotedAll(Noted(n, cs[0], pos), cs[1..], pos + |cs[0].Bytes()|)
  }

  /**
   Scanning a file that ends with well-formed chunks notes all of them, unless more of them are others than there
   is room for.
   */
  lemma {:induction false} ScanOfChunks(file: seq<byte>, pos: nat, n: Notes, cs: seq<Chunk>)
    requires AllOk(cs) && Has(file, pos, Concat(cs)) && pos + |Concat(cs)| == |file|
    requires |n.others| <= MAX_OTHER_CHUNKS
    ensures ScanFrom(file, pos, n) ==
            if |n.others| + |Others(cs)| <= MAX_OTHER_CHUNKS then Scanned(NotedAll(n, cs, pos)) else Refused
    decreases |cs|
  {
    if |cs| == 0 {
      ScanEnds(file, pos, n);
    } else if cs[0].Other() && |n.others| == MAX_OTHER_CHUNKS {
      OtherRefused(file, pos, n, cs);
    } else {
      var pos1, n1 := FirstScanned(file, pos, n, cs);
      ScanOfChunks(file, pos1, n1, cs[1..]);
    }
  }

  lemma OtherRefused(file: seq<byte>, pos: nat, n: Notes, cs: seq<Chunk>)
    requires |cs| > 0 && AllOk(cs) && Has(file, pos, Concat(cs)) && cs[0].Other()
    requires |n.others| == MAX_OTHER_CHUNKS
    ensures ScanFrom(file, pos, n) == Refused && |Others(cs)| > 0
  {
    HasBoth(file, pos, cs[0].Bytes(), Concat(cs[1..]));
    HasParts(file, pos, cs[0]);
    OtherCount(n, cs, pos);
    assert file[pos..pos + 4] == cs[0].id;
    assert RoundAt(file, pos, n) == End(Refused);
  }

  /** Before other bytes, the well-formed chunks are passed and noted. */
  lemma {:induction false} ScanPasses(file: seq<byte>, pos: nat, n: Notes, cs: seq<Chunk>, end: nat, m: Notes)
    requires AllOk(cs) && Has(file, pos, Concat(cs)) && |n.others| + |Others(cs)| <= MAX_OTHER_CHUNKS
    requires end == pos + |Concat(cs)| && m == NotedAll(n, cs, pos)
    ensures ScanFrom(file, pos, n) == ScanFrom(file, end, m)
    decreases |cs|
  {
    if |cs| > 0 {
      OtherCount(n, cs, pos);
      var pos1, n1 := FirstScanned(file, pos, n, cs);
      ScanPasses(file, pos1, n1, cs[1..], end, m);
    }
  }

  /** A format chunk of another encoding than PCM ends the scan. */
  lemma OtherEncodingRefused(file: seq<byte>, pos: nat, n: Notes, c: Chunk)
    requires c.id == FMT && 16 <= |c.body| < TWO_TO_32 && U16(c.body[..2]) != 1 && Has(file, pos, c.Bytes())
    ensures ScanFrom(file, pos, n) == Refused
  {
    HasParts(file, pos, c);
    FormatFields(file, pos, Le32(|c.body|), c.body);
    assert file[pos..pos + 4] == c.id;
    assert RoundAt(file, pos, n) == End(Refused);
  }

  lemma ScanEnds(file: seq<byte>, pos: nat, n: Notes)
    requires pos == |file|
    ensures ScanFrom(file, pos, n) == Scanned(n)
  {
    assert RoundAt(file, pos, n) == End(Scanned(n));
  }

  /** The first of several chunks, and what is noted of it. */
  lemma FirstNoted(file: seq<byte>, pos: nat, n: Notes, cs: seq<Chunk>) returns (pos': nat, n': Notes)
    requires |cs| > 0 && AllOk(cs) && Has(file, pos, Concat(cs))
    ensures pos' == pos + |cs[0].Bytes()| && n' == Noted(n, cs[0], pos)
    ensures Has(file, pos, cs[0].Bytes()) && Has(file, pos', Concat(cs[1..]))
    ensures NotedAll(n, cs, pos) == NotedAll(n', cs[1..], pos')
  {
    pos', n' := pos + |cs[0].Bytes()|, Noted(n, cs[0], pos);
    HasBoth(file, pos, cs[0].Bytes(), Concat(cs[1..]));
  }

  /** The first of several chunks is passed, and the others are ahead. */
  lemma FirstScanned(file: seq<byte>, pos: nat, n: Notes, cs: seq<Chunk>) returns (pos': nat, n': Notes)
    requires |cs| > 0 && AllOk(cs) && Has(file, pos, Concat(cs))
    requires cs[0].Other() ==> |n.others| < MAX_OTHER_CHUNKS
    ensures ScanFrom(file, pos, n) == ScanFrom(file, pos', n') && NotedAll(n, cs, pos) == NotedAll(n', cs[1..], pos')
    ensures Has(file, pos', Concat(cs[1..])) && pos' + |Concat(cs[1..])| == pos + |Concat(cs)|
    ensures |n'.others| + |Others(cs[1..])| == |n.others| + |Others(cs)|
    ensures |n.others| <= MAX_OTHER_CHUNKS ==> |n'.others| <= MAX_OTHER_CHUNKS
  {
    pos', n' := FirstNoted(file, pos, n, cs);
    OtherCount(n, cs, pos);
    ChunkRound(file, pos, n, cs[0]);
    ScanGoesOn(file, pos, n, pos', n');
  }

  lemma ScanGoesOn(file: seq<byte>, pos: nat, n: Notes, pos': nat, n': Notes)
    requires RoundAt(file, pos, n) == Go(pos', n')
    ensures ScanFrom(file, pos, n) == ScanFrom(file, pos', n')
  {
  }

  lemma OtherCount(n: Notes, cs: seq<Chunk>, pos: nat)
    requires |cs| > 0 && cs[0].Ok()
    ensures |Noted(n, cs[0], pos).others| + |Others(cs[1..])| == |n.others| + |Others(cs)|
    ensures cs[0].Other() ==> |Others(cs)| > 0
  {
  }

  // What the notes stand for

  /** The bytes a writer copies for the noted other chunks. */
  function CopiedAll(file: seq<byte>, locations: seq<Location>): seq<byte>
    requires forall i :: 0 <= i < |locations| ==> locations[i].Inside(file)
  {
    if |locations| == 0 then []
    else CopiedAll(file, locations[..|locations| - 1]) + locations[|locations| - 1].Copied(file)
  }

  predicate AllInside(file: seq<byte>, locations: seq<Location>) {
    forall i :: 0 <= i < |locations| ==> locations[i].Inside(file)
  }

  /** A chunk's bytes without the padding, copied, are the chunk with zero padding. */
  lemma ChunkCopied(file: seq<byte>, pos: nat, c: Chunk)
    requires Has(file, pos, c.Bytes()) && |c.id| == 4
    ensures Location(pos, 8 + |c.body|).Inside(file)
    ensures Location(pos, 8 + |c.body|).Copied(file) == c.Zeroed().Bytes()
  {
    var size := 8 + |c.body|;
    assert file[pos..pos + size] == file[pos..pos + |c.Bytes()|][..size];
    assert c.Bytes()[..size] == c.id + Le32(|c.body|) + c.body;
  }

  lemma {:induction false} OthersInside(file: seq<byte>, pos: nat, n: Notes, cs: seq<Chunk>)
    requires AllOk(cs) && Has(file, pos, Concat(cs)) && AllInside(file, n.others)
    ensures var m := NotedAll(n, cs, pos);
            AllInside(file, m.others) && |m.others| == |n.others| + |Others(cs)|
    decreases |cs|
  {
    if |cs| > 0 {
      var c, rest := cs[0], cs[1..];
      var pos1, n1 := FirstNoted(file, pos, n, cs);
      OneNoted(file, pos, n, c);
      OthersInside(file, pos1, n1, rest);
      assert |Others(cs)| == (if c.Other() then 1 else 0) + |Others(rest)|;
    }
  }

  /** The noted other chunks of a list are its other chunks, with zero padding, behind those noted before. */
  lemma {:induction false} OthersNoted(file: seq<byte>, pos: nat, n: Notes, cs: seq<Chunk>)
    requires AllOk(cs) && Has(file, pos, Concat(cs)) && AllInside(file, n.others)
    ensures var m := NotedAll(n, cs, pos);
            AllInside(file, m.others)
                && CopiedAll(file, m.others) == CopiedAll(file, n.others) + Concat(ZeroedAll(Others(cs)))
    decreases |cs|
  {
    OthersInside(file, pos, n, cs);
    if |cs| == 0 {
      assert ZeroedAll(Others(cs)) == [] && CopiedAll(file, n.others) + [] == CopiedAll(file, n.others);
    } else {
      var c, rest := cs[0], cs[1..];
      var pos1, n1 := FirstNoted(file, pos, n, cs);
      OneNoted(file, pos, n, c);
      OthersNoted(file, pos1, n1, rest);
      OtherOrNot(cs, CopiedAll(file, n.others));
    }
  }

  /** The first chunk joins what was copied before, or the rest is all there is. */
  lemma OtherOrNot(cs: seq<Chunk>, before: seq<byte>)
    requires |cs| > 0
    ensures before + Concat(ZeroedAll(Others(cs)))
         == (if cs[0].Other() then before + cs[0].Zeroed().Bytes() else before) + Concat(ZeroedAll(Others(cs[1..])))
  {
    if cs[0].Other() {
      OtherFirst(cs);
      ConcatAssociates(before, cs[0].Zeroed().Bytes(), Concat(ZeroedAll(Others(cs[1..]))));
    } else {
      assert Others(cs) == Others(cs[1..]);
    }
  }

  lemma OneNoted(file: seq<byte>, pos: nat, n: Notes, c: Chunk)
    requires c.Ok() && Has(file, pos, c.Bytes()) && AllInside(file, n.others)
    ensures var m := Noted(n, c, pos);
            if c.Other() then
              && AllInside(file, m.others) && |m.others| == |n.others| + 1
              && CopiedAll(file, m.others) == CopiedAll(file, n.others) + c.Zeroed().Bytes()
            else m.others == n.others
  {
    if c.Other() {
      ChunkCopied(file, pos, c);
      assert Noted(n, c, pos).others[..|n.others|] == n.others;
    }
  }

  lemma OtherFirst(cs: seq<Chunk>)
    requires |cs| > 0 && cs[0].Other()
    ensures Others(cs) == [cs[0]] + Others(cs[1..])
    ensures Concat(ZeroedAll(Others(cs))) == cs[0].Zeroed().Bytes() + Concat(ZeroedAll(Others(cs[1..])))
  {
    ZeroedFirst(cs[0], Others(cs[1..]));
    ConcatFirst(cs[0].Zeroed(), ZeroedAll(Others(cs[1..])));
  }

  lemma ZeroedFirst(c: Chunk, rest: seq<Chunk>)
    ensures ZeroedAll([c] + rest) == [c.Zeroed()] + ZeroedAll(rest)
  {
  }

  lemma ConcatFirst(c: Chunk, rest: seq<Chunk>)
    ensures Concat([c] + rest) == c.Bytes() + Concat(rest)
  {
    assert ([c] + rest)[1..] == rest;
  }

  /** The only format chunk of a list is what the noted format structure and extra bytes copy. */
  lemma {:induction false} FormatNoted(file: seq<byte>, pos: nat, n: Notes, cs: seq<Chunk>)
    requires AllOk(cs) && Has(file, pos, Concat(cs)) && |Pick(cs, FMT)| <= 1
    requires |Pick(cs, FMT)| == 1 ==> n.extra == Location(0, 0)
    ensures var m := NotedAll(n, cs, pos);
            if |Pick(cs, FMT)| == 0 then m.format == n.format && m.extra == n.extra
            else m.format.Some? && |m.format.value| == 24 && m.extra.Inside(file)
                 && m.format.value + m.extra.Copied(file) == Pick(cs, FMT)[0].Zeroed().Bytes()
    decreases |cs|
  {
    if |cs| > 0 {
      var c, rest := cs[0], cs[1..];
      var pos1, n1 := FirstNoted(file, pos, n, cs);
      if c.id == FMT {
        assert Pick(cs, FMT) == [c] + Pick(rest, FMT);
        FormatNoted(file, pos1, n1, rest);
        FormatCopied(file, pos, c);
        assert Noted(n, c, pos).format.value == FMT + Le32(|c.body|) + c.body[..16];
      } else {
        assert Pick(cs, FMT) == Pick(rest, FMT);
        FormatNoted(file, pos1, n1, rest);
      }
    }
  }

  lemma FormatCopied(file: seq<byte>, pos: nat, c: Chunk)
    requires Has(file, pos, c.Bytes()) && c.Ok() && c.id == FMT
    ensures var extra := if |c.body| > 16 then Location(pos + 24, |c.body| - 16) else Location(0, 0);
            && extra.Inside(file)
            && (FMT + Le32(|c.body|) + c.body[..16]) + extra.Copied(file) == c.Zeroed().Bytes()
  {
    HasParts(file, pos, c);
    ExtraCopied(file, pos, c.body);
    FrontAndExtra(FMT, Le32(|c.body|), c.body, Padding(|c.body|, 0));
  }

  lemma ExtraCopied(file: seq<byte>, pos: nat, body: seq<byte>)
    requires Has(file, pos + 8, body) && |body| >= 16
    ensures var extra := if |body| > 16 then Location(pos + 24, |body| - 16) else Location(0, 0);
            extra.Inside(file) && extra.Copied(file) == body[16..] + Padding(|body|, 0)
  {
    if |body| > 16 {
      assert file[pos + 24..pos + 8 + |body|] == file[pos + 8..pos + 8 + |body|][16..];
      assert (|body| - 16) % 2 == |body| % 2;
    }
  }

  lemma FrontAndExtra(id: seq<byte>, size: seq<byte>, body: seq<byte>, pad: seq<byte>)
    requires |body| >= 16
    ensures (id + size + body[..16]) + (body[16..] + pad) == id + size + body + pad
  {
  }

  /** Formats and sample data are noted where there are any, and what is noted lies in the file. */
  lemma {:induction false} PresenceNoted(file: seq<byte>, pos: nat, n: Notes, cs: seq<Chunk>)
    requires AllOk(cs) && Has(file, pos, Concat(cs)) && n.extra.Inside(file) && n.data.Inside(file)
    ensures var m := NotedAll(n, cs, pos);
            && (m.format.Some? <==> n.format.Some? || |Pick(cs, FMT)| > 0)
            && (m.data.size > 0 <==> n.data.size > 0 || |Pick(cs, DATA)| > 0)
            && m.extra.Inside(file) && m.data.Inside(file)
    decreases |cs|
  {
    if |cs| > 0 {
      var pos1, n1 := FirstNoted(file, pos, n, cs);
      HasParts(file, pos, cs[0]);
      IdsDiffer();
      PresenceNoted(file, pos1, n1, cs[1..]);
    }
  }

  /** The only sample data chunk of a list is what the noted location copies. */
  lemma {:induction false} DataNoted(file: seq<byte>, pos: nat, n: Notes, cs: seq<Chunk>)
    requires AllOk(cs) && Has(file, pos, Concat(cs)) && |Pick(cs, DATA)| <= 1
    ensures var m := NotedAll(n, cs, pos);
            if |Pick(cs, DATA)| == 0 then m.data == n.data
            else m.data.size >= 8 && m.data.Inside(file) && m.data.Copied(file) == Pick(cs, DATA)[0].Zeroed().Bytes()
    decreases |cs|
  {
    if |cs| > 0 {
      var c, rest := cs[0], cs[1..];
      var pos1, n1 := FirstNoted(file, pos, n, cs);
      if c.id == DATA {
        assert Pick(cs, DATA) == [c] + Pick(rest, DATA);
        DataNoted(file, pos1, n1, rest);
        ChunkCopied(file, pos, c);
      } else {
        assert Pick(cs, DATA) == Pick(rest, DATA);
        DataNoted(file, pos1, n1, rest);
      }
    }
  }
}
