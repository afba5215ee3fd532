/**
 addMarkersToWaveFile: a wave file and a text file of markers become a wave file with one
 cue point per marker. Files are byte sequences.
 */
module WavRewrite {
  import opened MachineInt
  import opened Riff
  import opened WavScan
  import Markers

  /**
   Indeterminate is a run that decides on or copies bytes that the input file does not have,
   Overrun one that stores behind the end of the array of positions.
   */
  datatype Outcome = Failed | Indeterminate | Overrun | Written(output: seq<byte>)

  // What is written

  /** Cue point i for a sample position. */
  function CuePoint(i: nat, position: nat): (b: seq<byte>)
    ensures |b| == 24
  {
    Le32(i + 1) + Le32(0) + DATA + Le32(0) + Le32(0) + Le32(position)
  }

  function Points(positions: seq<nat>): (points: seq<seq<byte>>)
    ensures |points| == |positions| && forall i :: 0 <= i < |points| ==> points[i] == CuePoint(i, positions[i])
  {
    seq(|positions|, i requires 0 <= i < |positions| => CuePoint(i, positions[i]))
  }

  /** Byte strings, one after the other. */
  function Flat(parts: seq<seq<byte>>): seq<byte> {
    if |parts| == 0 then [] else Flat(parts[..|parts| - 1]) + parts[|parts| - 1]
  }

  function CueChunk(positions: seq<nat>): Chunk {
    Chunk(CUE, Le32(|positions|) + Flat(Points(positions)), 0)
  }

  function Even(size: nat): nat {
    size + size % 2
  }

  function EvenSizes(locations: seq<Location>): nat {
    if |locations| == 0 then 0
    else EvenSizes(locations[..|locations| - 1]) + Even(locations[|locations| - 1].size)
  }

  /** The bytes behind the size field of the header. */
  function DataSize(n: Notes, count: nat): nat {
    4 + 24 + Even(n.extra.size) + Even(n.data.size) + EvenSizes(n.others) + 12 + 24 * count
  }

  predicate Present(file: seq<byte>, n: Notes) {
    n.extra.Inside(file) && n.data.Inside(file) && AllInside(file, n.others)
  }

  /** The header of the input with a new size. */
  function HeaderFrom(file: seq<byte>, size: nat): seq<byte>
    requires |file| >= 12
  {
    file[..4] + Le32(size) + file[8..12]
  }

  /** What follows the header: format, cue points, other chunks, sample data. */
  function Body(file: seq<byte>, n: Notes, positions: seq<nat>): seq<byte>
    requires n.format.Some? && Present(file, n)
  {
    (n.format.value + n.extra.Copied(file)) + CueChunk(positions).Bytes() + CopiedAll(file, n.others)
        + n.data.Copied(file)
  }

  function Output(file: seq<byte>, n: Notes, positions: seq<nat>): seq<byte>
    requires |file| >= 12 && n.format.Some? && Present(file, n)
  {
    HeaderFrom(file, Wrap32(DataSize(n, |positions|))) + Body(file, n, positions)
  }

  predicate HeaderOk(file: seq<byte>)
    requires |file| >= 12
  {
    file[..4] == RIFF && file[8..12] == WAVE && Wrap32(U32(file[4..8]) - 4) > 0
  }

  /** How far a run comes before it reads the markers: it stops, or it has notes on a usable wave file. */
  datatype Input = Stop(outcome: Outcome) | Ready(notes: Notes)

  function ReadInput(file: seq<byte>): (input: Input)
    ensures input.Ready? ==> |file| >= 12 && input.notes.format.Some?
  {
    if |file| < 12 then Stop(Indeterminate)
    else if !HeaderOk(file) then Stop(Failed)
    else
      match ScanFrom(file, 12, NOTHING)
      case Refused => Stop(Failed)
      case CutShort => Stop(Indeterminate)
      case Scanned(n) => if n.format.None? || n.data.size == 0 then Stop(Failed) else Ready(n)
  }

  function Rewrite(file: seq<byte>, positions: seq<nat>): Outcome {
    match ReadInput(file)
    case Stop(outcome) => outcome
    case Ready(n) =>
      if |positions| == 0 then Failed
      else if |positions| > Markers.ROOM then Overrun
      else if !Present(file, n) then Indeterminate
      else Written(Output(file, n, positions))
  }

  // The code

  /** writeChunkLocationFromInputFileToOutputFile: pieces of 1024 bytes and the rest. */
  method CopyChunk(file: seq<byte>, chunk: Location, before: seq<byte>) returns (output: seq<byte>)
    requires chunk.Inside(file)
    ensures output == before + file[chunk.start..chunk.start + chunk.size]
  {
    output := before;
    var pos, remaining := chunk.start, chunk.size;
    while remaining >= 1024
      invariant pos + remaining == chunk.start + chunk.size && chunk.start <= pos
      invariant output == before + file[chunk.start..pos]
    {
      assert file[chunk.start..pos + 1024] == file[chunk.start..pos] + file[pos..pos + 1024];
      output := output + file[pos..pos + 1024];
      pos := pos + 1024;
      remaining := remaining - 1024;
    }
    if remaining > 0 {
      assert file[chunk.start..pos + remaining] == file[chunk.start..pos] + file[pos..pos + remaining];
      output := output + file[pos..pos + remaining];
    }
  }

  /** A copied range and its padding byte. */
  method CopyPadded(file: seq<byte>, chunk: Location, before: seq<byte>) returns (output: seq<byte>)
    requires chunk.Inside(file)
    ensures output == before + chunk.Copied(file)
  {
    output := CopyChunk(file, chunk, before);
    if chunk.size % 2 != 0 {
      output := output + [0];
    }
  }

  method CopyOthers(file: seq<byte>, others: seq<Location>, before: seq<byte>) returns (output: seq<byte>)
    requires AllInside(file, others)
    ensures output == before + CopiedAll(file, others)
  {
    output := before;
    for i := 0 to |others|
      invariant output == before + CopiedAll(file, others[..i])
    {
      output := CopyPadded(file, others[i], output);
      assert others[..i + 1][..i] == others[..i];
      assert CopiedAll(file, others[..i + 1]) == CopiedAll(file, others[..i]) + others[i].Copied(file);
    }
    assert others[..|others|] == others;
  }

  /** The size for the header, added up in a uint32_t. */
  method HeaderSize(n: Notes, count: nat) returns (fileDataSize: nat)
    ensures fileDataSize == Wrap32(DataSize(n, count))
  {
    fileDataSize := Wrap32(4 + 24);
    fileDataSize := AddEven(fileDataSize, n.extra.size, 28);
    fileDataSize := AddEven(fileDataSize, n.data.size, 28 + Even(n.extra.size));
    for i := 0 to |n.others|
      invariant fileDataSize == Wrap32(28 + Even(n.extra.size) + Even(n.data.size) + EvenSizes(n.others[..i]))
    {
      fileDataSize := AddEven(fileDataSize, n.others[i].size,
          28 + Even(n.extra.size) + Even(n.data.size) + EvenSizes(n.others[..i]));
      assert n.others[..i + 1][..i] == n.others[..i];
    }
    assert n.others[..|n.others|] == n.others;
    WrapSum(28 + Even(n.extra.size) + Even(n.data.size) + EvenSizes(n.others), 12 + 24 * count);
    fileDataSize := Wrap32(fileDataSize + 12 + 24 * count);
  }

  lemma WrapSum(a: nat, b: nat)
    ensures Wrap32(Wrap32(a) + b) == Wrap32(a + b)
  {
  }

  method AddEven(sum: nat, size: nat, ghost total: nat) returns (r: nat)
    requires sum == Wrap32(total)
    ensures r == Wrap32(total + Even(size))
  {
    WrapSum(total, size);
    r := Wrap32(sum + size);
    if size % 2 != 0 {
      WrapSum(total + size, 1);
      r := Wrap32(r + 1);
    }
  }

  function CueStart(count: nat): (b: seq<byte>)
    ensures |b| == 8
  {
    CUE + Le32(4 + 24 * count)
  }

  /** The cue chunk's header, and a structure per position. */
  method PrepareCue(positions: seq<nat>) returns (header: seq<byte>, points: seq<seq<byte>>)
    requires 4 + 24 * |positions| < TWO_TO_32
    ensures header == CueStart(|positions|) + Le32(|positions|)
    ensures points == Points(positions)
  {
    points := [];
    for i := 0 to |positions|
      invariant |points| == i && forall j :: 0 <= j < i ==> points[j] == CuePoint(j, positions[j])
    {
      points := points + [Le32(i + 1) + Le32(0) + DATA + Le32(0) + Le32(0) + Le32(positions[i])];
    }
    header := CueStart(|positions|) + Le32(|positions|);
  }

  /** The structures, one after the other. */
  method JoinPoints(points: seq<seq<byte>>, count: nat) returns (bytes: seq<byte>)
    requires count == |points|
    ensures bytes == Flat(points)
  {
    bytes := [];
    for i := 0 to count
      invariant bytes == Flat(points[..i])
    {
      bytes := bytes + points[i];
      assert points[..i + 1][..i] == points[..i];
    }
    assert points[..|points|] == points;
  }

  method WriteCue(positions: seq<nat>, before: seq<byte>) returns (output: seq<byte>)
    requires 4 + 24 * |positions| < TWO_TO_32
    ensures output == before + CueChunk(positions).Bytes()
  {
    var header, points := PrepareCue(positions);
    CountField(CueStart(|positions|), |positions|);
    var bytes := JoinPoints(points, U32(header[8..12]));
    output := before + header + bytes;
    CueBytes(positions, before);
  }

  lemma CueBytes(positions: seq<nat>, before: seq<byte>)
    ensures before + (CueStart(|positions|) + Le32(|positions|)) + Flat(Points(positions))
            == before + CueChunk(positions).Bytes()
  {
    PointsLength(positions);
    CueChunkBytes(before, |positions|, Le32(|positions|), Flat(Points(positions)));
  }

  lemma EvenCue(n: nat)
    ensures (4 + 24 * n) % 2 == 0
  {
    assert 4 + 24 * n == 2 * (2 + 12 * n);
  }

  lemma CueChunkBytes(before: seq<byte>, n: nat, count: seq<byte>, points: seq<byte>)
    requires |count| == 4 && |points| == 24 * n
    ensures before + (CueStart(n) + count) + points == before + Chunk(CUE, count + points, 0).Bytes()
  {
    EvenCue(n);
    ChunkBytes(Chunk(CUE, count + points, 0), before, CueStart(n), count, points);
  }

  lemma CountField(start: seq<byte>, count: nat)
    requires |start| == 8 && count < TWO_TO_32
    ensures U32((start + Le32(count))[8..12]) == count
  {
    assert (start + Le32(count))[8..12] == Le32(count);
    Le32Reads(count);
  }

  lemma {:induction false} FlatLength(parts: seq<seq<byte>>)
    requires forall i :: 0 <= i < |parts| ==> |parts[i]| == 24
    ensures |Flat(parts)| == 24 * |parts|
    decreases |parts|
  {
    if |parts| > 0 {
      FlatLength(parts[..|parts| - 1]);
    }
  }

  lemma PointsLength(positions: seq<nat>)
    ensures |Flat(Points(positions))| == 24 * |positions|
  {
    FlatLength(Points(positions));
  }

  lemma ChunkBytes(c: Chunk, before: seq<byte>, start: seq<byte>, count: seq<byte>, points: seq<byte>)
    requires c.body == count + points && |c.body| % 2 == 0 && start == c.id + Le32(|c.body|)
    ensures before + (start + count) + points == before + c.Bytes()
  {
    CueRegroups(before, start, count, points, c.body);
  }

  lemma CueRegroups(before: seq<byte>, start: seq<byte>, count: seq<byte>, points: seq<byte>, body: seq<byte>)
    requires body == count + points
    ensures before + (start + count) + points == before + (start + body + [])
  {
  }

  /** The extra format bytes, if there are any. */
  method WriteExtra(file: seq<byte>, extra: Location, before: seq<byte>) returns (output: seq<byte>)
    requires extra.Inside(file)
    ensures output == before + extra.Copied(file)
  {
    output := before;
    if extra.size > 0 {
      output := CopyPadded(file, extra, output);
    } else {
      assert extra.Copied(file) == [];
    }
  }

  method WriteOutput(file: seq<byte>, n: Notes, positions: seq<nat>) returns (output: seq<byte>)
    requires |file| >= 12 && n.format.Some? && Present(file, n) && |positions| <= Markers.ROOM
    ensures output == Output(file, n, positions)
  {
    var size := HeaderSize(n, |positions|);
    output := HeaderFrom(file, size) + n.format.value;
    output := WriteExtra(file, n.extra, output);
    output := WriteCue(positions, output);
    output := CopyOthers(file, n.others, output);
    output := CopyPadded(file, n.data, output);
    PiecesRegroup(HeaderFrom(file, size), n.format.value, n.extra.Copied(file), CueChunk(positions).Bytes(),
                  CopiedAll(file, n.others), n.data.Copied(file), Body(file, n, positions));
  }

  /** The first half of addMarkersToWaveFile. */
  method ReadWave(file: seq<byte>) returns (input: Input)
    ensures input == ReadInput(file)
  {
    if |file| < 12 { return Stop(Indeterminate); }
    if file[..4] != RIFF || file[8..12] != WAVE { return Stop(Failed); }
    var remainingFileSize := Wrap32(U32(file[4..8]) - 4);
    if remainingFileSize <= 0 { return Stop(Failed); }
    var scan := ScanChunks(file);
    if scan.Refused? { return Stop(Failed); }
    if scan.CutShort? { return Stop(Indeterminate); }
    if scan.notes.format.None? || scan.notes.data.size == 0 { return Stop(Failed); }
    return Ready(scan.notes);
  }

  /** addMarkersToWaveFile. */
  method AddMarkers(file: seq<byte>, markerText: seq<byte>) returns (outcome: Outcome)
    ensures outcome == Rewrite(file, Markers.Positions(markerText))
  {
    var input := ReadWave(file);
    if input.Stop? { return input.outcome; }
    var cueLocations, cueLocationsCount, overrun := Markers.ReadMarkers(markerText);
    if overrun { return Overrun; }
    if cueLocationsCount < 1 { return Failed; }
    if !Present(file, input.notes) { return Indeterminate; }
    assert cueLocations[..cueLocationsCount] == Markers.Positions(markerText);
    var output := WriteOutput(file, input.notes, cueLocations[..cueLocationsCount]);
    return Written(output);
  }

  // Files made of chunks

  function Header(declared: nat): (h: seq<byte>)
    ensures |h| == 12
  {
    RIFF + Le32(declared) + WAVE
  }

  /** One format chunk, one sample data chunk, cue chunks as counted, and no more others than there is room for. */
  predicate Sound(cs: seq<Chunk>) {
    AllOk(cs) && |Pick(cs, FMT)| == 1 && |Pick(cs, DATA)| == 1 && |Others(cs)| <= MAX_OTHER_CHUNKS
  }

  /** The chunks of the output: format, new cue points, the others in order, sample data. */
  function Marked(cs: seq<Chunk>, positions: seq<nat>): seq<Chunk>
    requires Sound(cs)
  {
    [Pick(cs, FMT)[0].Zeroed(), CueChunk(positions)] + ZeroedAll(Others(cs)) + [Pick(cs, DATA)[0].Zeroed()]
  }

  /** The declared size only matters in that it must not be 4. */
  predicate Declares(declared: nat) {
    declared < TWO_TO_32 && declared != 4
  }

  /** What the scan of a sound file has noted. */
  lemma NotesOf(file: seq<byte>, cs: seq<Chunk>)
    requires Sound(cs) && |file| == 12 + |Concat(cs)| && file[12..] == Concat(cs)
    ensures var n := NotedAll(NOTHING, cs, 12);
            && ScanFrom(file, 12, NOTHING) == Scanned(n)
            && n.format.Some? && |n.format.value| == 24 && n.data.size != 0 && Present(file, n)
            && n.format.value + n.extra.Copied(file) == Pick(cs, FMT)[0].Zeroed().Bytes()
            && CopiedAll(file, n.others) == Concat(ZeroedAll(Others(cs)))
            && n.data.Copied(file) == Pick(cs, DATA)[0].Zeroed().Bytes()
  {
    assert Has(file, 12, Concat(cs)) by { assert file[12..12 + |Concat(cs)|] == file[12..]; }
    ScanOfChunks(file, 12, NOTHING, cs);
    FormatNoted(file, 12, NOTHING, cs);
    DataNoted(file, 12, NOTHING, cs);
    OthersNoted(file, 12, NOTHING, cs);
    assert CopiedAll(file, []) == [];
  }

  lemma {:induction false} CopiedLength(file: seq<byte>, locations: seq<Location>)
    requires AllInside(file, locations)
    ensures |CopiedAll(file, locations)| == EvenSizes(locations)
    decreases |locations|
  {
    if |locations| > 0 {
      CopiedLength(file, locations[..|locations| - 1]);
    }
  }

  lemma MarkedBytes(cs: seq<Chunk>, positions: seq<nat>)
    requires Sound(cs)
    ensures Concat(Marked(cs, positions))
         == Pick(cs, FMT)[0].Zeroed().Bytes() + CueChunk(positions).Bytes()
            + Concat(ZeroedAll(Others(cs))) + Pick(cs, DATA)[0].Zeroed().Bytes()
  {
    var f, c, d := Pick(cs, FMT)[0].Zeroed(), CueChunk(positions), Pick(cs, DATA)[0].Zeroed();
    ConcatOf([f, c] + ZeroedAll(Others(cs)), [d]);
    ConcatOf([f, c], ZeroedAll(Others(cs)));
    assert [f, c] == [f] + [c];
    ConcatOf([f], [c]);
    ConcatOne(f);
    ConcatOne(c);
    ConcatOne(d);
  }

  /** The file of the marked chunks, with a size field for its own length. */
  function MarkedFile(cs: seq<Chunk>, positions: seq<nat>): seq<byte>
    requires Sound(cs)
  {
    WithHeader(Concat(Marked(cs, positions)))
  }

  function WithHeader(chunks: seq<byte>): seq<byte> {
    Header(Wrap32(4 + |chunks|)) + chunks
  }

  lemma RewriteScanned(file: seq<byte>, n: Notes, positions: seq<nat>)
    requires |file| >= 12 && HeaderOk(file) && ScanFrom(file, 12, NOTHING) == Scanned(n)
    requires n.format.Some? && n.data.size != 0 && Present(file, n)
    ensures Rewrite(file, positions) ==
            if positions == [] then Failed
            else if |positions| > Markers.ROOM then Overrun
            else Written(Output(file, n, positions))
  {
  }

  /** What a run on a sound file gives. */
  function ResultFor(cs: seq<Chunk>, positions: seq<nat>): Outcome
    requires Sound(cs)
  {
    if positions == [] then Failed
    else if |positions| > Markers.ROOM then Overrun
    else Written(MarkedFile(cs, positions))
  }

  /**
   The output for a sound file is the file of its marked chunks, unless there are no markers or they
   overrun their array.
   */
  lemma SoundFileIsMarked(file: seq<byte>, declared: nat, cs: seq<Chunk>, positions: seq<nat>)
    requires Sound(cs) && Declares(declared) && file == Header(declared) + Concat(cs)
    ensures Rewrite(file, positions) == ResultFor(cs, positions)
  {
    assert file[12..] == Concat(cs);
    HeaderFields(declared, Concat(cs));
    NotesOf(file, cs);
    RewriteScanned(file, NotedAll(NOTHING, cs, 12), positions);
    OutputIsMarked(file, NotedAll(NOTHING, cs, 12), cs, positions);
  }

  lemma OutputIsMarked(file: seq<byte>, n: Notes, cs: seq<Chunk>, positions: seq<nat>)
    requires Sound(cs) && |file| >= 12 && file[..4] == RIFF && file[8..12] == WAVE
    requires n.format.Some? && |n.format.value| == 24 && Present(file, n)
    requires n.format.value + n.extra.Copied(file) == Pick(cs, FMT)[0].Zeroed().Bytes()
    requires CopiedAll(file, n.others) == Concat(ZeroedAll(Others(cs)))
    requires n.data.Copied(file) == Pick(cs, DATA)[0].Zeroed().Bytes()
    ensures Output(file, n, positions) == MarkedFile(cs, positions)
  {
    MarkedBytes(cs, positions);
    OutputPieces(file, n, positions);
  }

  lemma HeaderFields(declared: nat, rest: seq<byte>)
    requires Declares(declared)
    ensures var file := Header(declared) + rest; HeaderOk(file) && file[..4] == RIFF && file[8..12] == WAVE
  {
    SizeField(declared, rest);
  }

  lemma SizeField(declared: nat, rest: seq<byte>)
    requires declared < TWO_TO_32
    ensures U32((Header(declared) + rest)[4..8]) == declared
  {
    assert (Header(declared) + rest)[4..8] == Le32(declared);
    Le32Reads(declared);
  }

  lemma OutputPieces(file: seq<byte>, n: Notes, positions: seq<nat>)
    requires |file| >= 12 && file[..4] == RIFF && file[8..12] == WAVE
    requires n.format.Some? && |n.format.value| == 24 && Present(file, n)
    ensures Output(file, n, positions) == WithHeader(Body(file, n, positions))
  {
    BodySize(file, n, positions);
    SameHeader(file, Wrap32(DataSize(n, |positions|)));
  }

  lemma SameHeader(file: seq<byte>, size: nat)
    requires |file| >= 12 && file[..4] == RIFF && file[8..12] == WAVE
    ensures HeaderFrom(file, size) == Header(size)
  {
  }

  lemma BodySize(file: seq<byte>, n: Notes, positions: seq<nat>)
    requires n.format.Some? && |n.format.value| == 24 && Present(file, n)
    ensures 4 + |Body(file, n, positions)| == DataSize(n, |positions|)
  {
    CopiedLength(file, n.others);
    CueSize(positions);
    PiecesSize(n.format.value, n.extra.Copied(file), CueChunk(positions).Bytes(), CopiedAll(file, n.others),
        n.data.Copied(file));
  }

  lemma CueSize(positions: seq<nat>)
    ensures |CueChunk(positions).Bytes()| == 12 + 24 * |positions|
  {
    PointsLength(positions);
    var c := CueChunk(positions);
    assert |c.body| == 4 + 24 * |positions| && |c.id| == 4;
  }

  lemma PiecesSize(f: seq<byte>, e: seq<byte>, c: seq<byte>, o: seq<byte>, d: seq<byte>)
    ensures |(f + e) + c + o + d| == |f| + |e| + |c| + |o| + |d|
  {
  }

  lemma PiecesRegroup(h: seq<byte>, f: seq<byte>, e: seq<byte>, c: seq<byte>, o: seq<byte>, d: seq<byte>,
      chunks: seq<byte>)
    requires chunks == (f + e) + c + o + d
    ensures h + f + e + c + o + d == h + chunks
  {
  }

  /** For every file of well-formed chunks, exactly when it is rewritten. */
  lemma ChunkFilesExact(file: seq<byte>, declared: nat, cs: seq<Chunk>, positions: seq<nat>)
    requires AllOk(cs) && Declares(declared) && file == Header(declared) + Concat(cs)
    ensures var usable := Pick(cs, FMT) != [] && Pick(cs, DATA) != [] && |Others(cs)| <= 256;
            && (Rewrite(file, positions) == Failed <==> !usable || positions == [])
            && (Rewrite(file, positions) == Overrun <==> usable && |positions| > 1000)
            && (Rewrite(file, positions).Written? <==> usable && 0 < |positions| <= 1000)
  {
    assert file[12..] == Concat(cs);
    HeaderFields(declared, Concat(cs));
    assert Has(file, 12, Concat(cs)) by { assert file[12..12 + |Concat(cs)|] == file[12..]; }
    ScanOfChunks(file, 12, NOTHING, cs);
    PresenceNoted(file, 12, NOTHING, cs);
    OthersInside(file, 12, NOTHING, cs);
  }

  /** A file that does not start as a wave file, or says that nothing follows, is refused. */
  lemma OtherHeaderFails(file: seq<byte>, positions: seq<nat>)
    requires |file| >= 12
    requires !Spells(file[..4], "RIFF") || !Spells(file[8..12], "WAVE") || U32(file[4..8]) == 4
    ensures Rewrite(file, positions) == Failed
  {
    IdsSpelled();
    SmallestSize(U32(file[4..8]));
    HeaderRefusedFails(file, positions);
  }

  lemma SmallestSize(declared: nat)
    ensures declared == 4 ==> Wrap32(declared - 4) == 0
  {
  }

  lemma HeaderRefusedFails(file: seq<byte>, positions: seq<nat>)
    requires |file| >= 12 && !HeaderOk(file)
    ensures Rewrite(file, positions) == Failed
  {
  }

  lemma ScanRefusedFails(file: seq<byte>, positions: seq<nat>)
    requires |file| >= 12 && HeaderOk(file) && ScanFrom(file, 12, NOTHING) == Refused
    ensures Rewrite(file, positions) == Failed
  {
  }

  /** A file with a format chunk of another encoding than PCM is refused. */
  lemma OtherEncodingFails(file: seq<byte>, declared: nat, cs: seq<Chunk>, c: Chunk, rest: seq<byte>,
      positions: seq<nat>)
    requires AllOk(cs) && |Others(cs)| <= 256 && Declares(declared)
    requires c.id == FMT && 16 <= |c.body| < TWO_TO_32 && U16(c.body[..2]) != 1
    requires file == Header(declared) + (Concat(cs) + (c.Bytes() + rest))
    ensures Rewrite(file, positions) == Failed
  {
    HeaderFields(declared, Concat(cs) + (c.Bytes() + rest));
    PartsBehind(Header(declared), Concat(cs), c.Bytes(), rest, file);
    ScanPasses(file, 12, NOTHING, cs, 12 + |Concat(cs)|, NotedAll(NOTHING, cs, 12));
    OtherEncodingRefused(file, 12 + |Concat(cs)|, NotedAll(NOTHING, cs, 12), c);
    ScanRefusedFails(file, positions);
  }

  lemma PartsBehind(h: seq<byte>, a: seq<byte>, b: seq<byte>, rest: seq<byte>, file: seq<byte>)
    requires file == h + (a + (b + rest))
    ensures Has(file, |h|, a) && Has(file, |h| + |a|, b)
  {
    assert Has(file, |h|, a + (b + rest));
    HasBoth(file, |h|, a, b + rest);
    HasBoth(file, |h| + |a|, b, rest);
  }

  /** The loop notes a format structure of 24 bytes, if any. */
  lemma {:induction false} FormatSize(file: seq<byte>, pos: nat, n: Notes)
    requires n.format.Some? ==> |n.format.value| == 24
    ensures var scan := ScanFrom(file, pos, n);
            scan.Scanned? && scan.notes.format.Some? ==> |scan.notes.format.value| == 24
    decreases |file| - pos
  {
    match RoundAt(file, pos, n)
    case End(_) =>
    case Go(pos', n') => FormatSize(file, pos', n');
  }

  /** Behind the size field there are so many bytes; it says so if and only if that fits 32 bits. */
  predicate FieldOf(output: seq<byte>, size: nat) {
    && |output| == 8 + size >= 12 && U32(output[4..8]) == Wrap32(size)
    && (U32(output[4..8]) == |output| - 8 <==> size < TWO_TO_32)
  }

  /**
   For every file that is rewritten: the size field is right if and only if the sizes noted of the
   input add up to 32 bits.
   */
  lemma SizeFieldIsLength(file: seq<byte>, positions: seq<nat>)
    requires Rewrite(file, positions).Written?
    ensures ReadInput(file).Ready?
    ensures FieldOf(Rewrite(file, positions).output, DataSize(ReadInput(file).notes, |positions|))
  {
    var n := ReadInput(file).notes;
    FormatSize(file, 12, NOTHING);
    BodySize(file, n, positions);
    FieldReads(file[..4], DataSize(n, |positions|), file[8..12], Body(file, n, positions));
  }

  lemma FieldReads(riff: seq<byte>, size: nat, wave: seq<byte>, body: seq<byte>)
    requires |riff| == 4 && |wave| == 4
    ensures U32((riff + Le32(Wrap32(size)) + wave + body)[4..8]) == Wrap32(size)
    ensures Wrap32(size) == size <==> size < TWO_TO_32
  {
    assert (riff + Le32(Wrap32(size)) + wave + body)[4..8] == Le32(Wrap32(size));
    Le32Reads(Wrap32(size));
  }

  /** The bytes behind the header of the output for a sound file. */
  function MarkedSize(cs: seq<Chunk>, count: nat): nat
    requires Sound(cs)
  {
    |Pick(cs, FMT)[0].Bytes()| + 12 + 24 * count + |Concat(Others(cs))| + |Pick(cs, DATA)[0].Bytes()|
  }

  lemma MarkedLength(cs: seq<Chunk>, positions: seq<nat>)
    requires Sound(cs)
    ensures |Concat(Marked(cs, positions))| == MarkedSize(cs, |positions|)
  {
    MarkedBytes(cs, positions);
    CueSize(positions);
    ZeroedLength(Others(cs));
  }

  lemma {:induction false} ZeroedLength(cs: seq<Chunk>)
    ensures |Concat(ZeroedAll(cs))| == |Concat(cs)|
    decreases |cs|
  {
    if |cs| > 0 {
      ZeroedLength(cs[1..]);
      assert ZeroedAll(cs)[1..] == ZeroedAll(cs[1..]);
    }
  }

  /** For a sound file, the same in terms of its chunks. */
  lemma MarkedSizeField(cs: seq<Chunk>, positions: seq<nat>)
    requires Sound(cs)
    ensures FieldOf(MarkedFile(cs, positions), 4 + MarkedSize(cs, |positions|))
  {
    MarkedLength(cs, positions);
    HeaderField(Concat(Marked(cs, positions)));
  }

  lemma HeaderField(chunks: seq<byte>)
    ensures FieldOf(WithHeader(chunks), 4 + |chunks|)
  {
    SizeField(Wrap32(4 + |chunks|), chunks);
  }

  lemma OthersStay(cs: seq<Chunk>, id: seq<byte>)
    requires AllOk(cs) && (id == FMT || id == DATA || id == CUE)
    ensures var others := ZeroedAll(Others(cs)); AllOk(others) && Pick(others, id) == [] && Others(others) == others
  {
    OthersAre(cs);
    PickNone(ZeroedAll(Others(cs)), id);
  }

  lemma MarkedPick(cs: seq<Chunk>, positions: seq<nat>, id: seq<byte>)
    requires Sound(cs) && (id == FMT || id == DATA || id == CUE)
    ensures Pick(Marked(cs, positions), id) ==
            if id == FMT then [Pick(cs, FMT)[0].Zeroed()] else if id == DATA then [Pick(cs, DATA)[0].Zeroed()]
                else [CueChunk(positions)]
  {
    var f, c, d, others := Pick(cs, FMT)[0].Zeroed(), CueChunk(positions), Pick(cs, DATA)[0].Zeroed(),
        ZeroedAll(Others(cs));
    OthersStay(cs, id);
    PickedOne(cs, FMT);
    PickedOne(cs, DATA);
    PickOf([f, c] + others, [d], id);
    PickOf([f, c], others, id);
    IdsDiffer();
    PicksOfThree(f, c, d);
  }

  lemma MarkedOthers(cs: seq<Chunk>, positions: seq<nat>)
    requires Sound(cs)
    ensures Others(Marked(cs, positions)) == ZeroedAll(Others(cs))
  {
    var f, c, d, others := Pick(cs, FMT)[0].Zeroed(), CueChunk(positions), Pick(cs, DATA)[0].Zeroed(),
        ZeroedAll(Others(cs));
    OthersStay(cs, FMT);
    PickedOne(cs, FMT);
    PickedOne(cs, DATA);
    OthersOf([f, c] + others, [d]);
    OthersOf([f, c], others);
    PicksOfThree(f, c, d);
  }

  lemma MarkedOk(cs: seq<Chunk>, positions: seq<nat>)
    requires Sound(cs) && |positions| <= Markers.ROOM
    ensures AllOk(Marked(cs, positions))
  {
    PickedOne(cs, FMT);
    PickedOne(cs, DATA);
    CueIsOk(positions);
    OthersStay(cs, FMT);
  }

  /** The marked chunks are sound, and hold the same format, others and data, and the new cue points only. */
  lemma MarkedIsSound(cs: seq<Chunk>, positions: seq<nat>)
    requires Sound(cs) && |positions| <= Markers.ROOM
    ensures var m := Marked(cs, positions);
            && Sound(m)
            && Pick(m, FMT) == [Pick(cs, FMT)[0].Zeroed()] && Pick(m, DATA) == [Pick(cs, DATA)[0].Zeroed()]
            && Others(m) == ZeroedAll(Others(cs)) && Pick(m, CUE) == [CueChunk(positions)]
  {
    IdsDiffer();
    MarkedOk(cs, positions);
    MarkedOthers(cs, positions);
    MarkedPick(cs, positions, FMT);
    MarkedPick(cs, positions, DATA);
    MarkedPick(cs, positions, CUE);
  }

  lemma PicksOfThree(f: Chunk, c: Chunk, d: Chunk)
    requires f.id == FMT && c.id == CUE && d.id == DATA
    ensures Pick([f, c], FMT) == [f] && Pick([f, c], CUE) == [c] && Pick([f, c], DATA) == [] && Others([f, c]) == []
    ensures Pick([d], FMT) == [] && Pick([d], CUE) == [] && Pick([d], DATA) == [d] && Others([d]) == []
  {
    IdsDiffer();
    forall id | id == FMT || id == CUE || id == DATA ensures Pick([f, c], id) == Pick([f], id) + Pick([c], id) {
      PickOf([f], [c], id);
      assert [f] + [c] == [f, c];
    }
    forall x, id | (x == f || x == c || x == d) && (id == FMT || id == CUE || id == DATA)
      ensures Pick([x], id) == (if x.id == id then [x] else []) && Others([x]) == []
    {
      PickSingle(x, id);
    }
    OthersOf([f], [c]);
    assert [f] + [c] == [f, c];
  }

  lemma {:induction false} PickedOne(cs: seq<Chunk>, id: seq<byte>)
    ensures forall i :: 0 <= i < |Pick(cs, id)| ==> Pick(cs, id)[i].id == id && (AllOk(cs) ==> Pick(cs, id)[i].Ok())
    decreases |cs|
  {
    if |cs| > 0 {
      PickedOne(cs[1..], id);
      if AllOk(cs) { assert AllOk(cs[1..]); }
    }
  }

  lemma CueIsOk(positions: seq<nat>)
    requires |positions| <= Markers.ROOM
    ensures CueChunk(positions).Ok()
  {
    PointsLength(positions);
    var c := CueChunk(positions);
    assert c.body[..2] == Le32(|positions|)[..2];
    LowHalfReads(|positions|);
  }

  /** Reading cue points back: the frame offsets of as many structures as are counted. */
  function ReadCue(body: seq<byte>, count: nat): seq<nat>
    requires |body| == 4 + 24 * count
  {
    seq(count, i requires 0 <= i < count => U32(body[4 + 24 * i + 20..4 + 24 * i + 24]))
  }

  /** The cue points of the output stand for the positions of the markers. */
  lemma CueRoundTrip(positions: seq<nat>)
    requires forall i :: 0 <= i < |positions| ==> positions[i] < TWO_TO_32
    ensures |CueChunk(positions).body| == 4 + 24 * |positions|
            && ReadCue(CueChunk(positions).body, |positions|) == positions
  {
    PointsLength(positions);
    var body := CueChunk(positions).body;
    forall i | 0 <= i < |positions| ensures ReadCue(body, |positions|)[i] == positions[i] {
      PartAt(Points(positions), i, 24 * i);
      FrameOffset(Le32(|positions|), Flat(Points(positions)), 24 * i, i, positions[i]);
    }
  }

  lemma FrameOffset(count: seq<byte>, points: seq<byte>, from: nat, i: nat, position: nat)
    requires |count| == 4 && from + 24 <= |points| && position < TWO_TO_32
    requires points[from..from + 24] == CuePoint(i, position)
    ensures U32((count + points)[4 + from + 20..4 + from + 24]) == position
  {
    assert (count + points)[4 + from + 20..4 + from + 24] == points[from..from + 24][20..];
    assert CuePoint(i, position)[20..] == Le32(position);
    Le32Reads(position);
  }

  /** Part i of equal parts. */
  lemma {:induction false} PartAt(parts: seq<seq<byte>>, i: nat, from: nat)
    requires i < |parts| && from == 24 * i && forall j :: 0 <= j < |parts| ==> |parts[j]| == 24
    ensures from + 24 <= |Flat(parts)| && Flat(parts)[from..from + 24] == parts[i]
    decreases |parts|
  {
    var last := |parts| - 1;
    FlatLength(parts[..last]);
    if i < last {
      PartAt(parts[..last], i, from);
      SliceOfFirst(Flat(parts[..last]), parts[last], from, from + 24);
    } else {
      SliceOfSecond(Flat(parts[..last]), parts[last]);
    }
  }

  lemma SliceOfFirst(a: seq<byte>, b: seq<byte>, from: nat, to: nat)
    requires from <= to <= |a|
    ensures (a + b)[from..to] == a[from..to]
  {
  }

  lemma SliceOfSecond(a: seq<byte>, b: seq<byte>)
    ensures (a + b)[|a|..|a| + |b|] == b
  {
  }

  /** What a range-copying reader finds in a file: format with its extra bytes, other chunks, sample data. */
  datatype Copies = Copies(format: seq<byte>, others: seq<byte>, data: seq<byte>)

  function CopiesOf(file: seq<byte>, n: Notes): Copies
    requires n.format.Some? && Present(file, n)
  {
    Copies(n.format.value + n.extra.Copied(file), CopiedAll(file, n.others), n.data.Copied(file))
  }

  /** The notes on a sound file copy its zero-padded chunks. */
  lemma SoundCopies(file: seq<byte>, cs: seq<Chunk>)
    requires Sound(cs) && |file| == 12 + |Concat(cs)| && file[12..] == Concat(cs)
    ensures var scan := ScanFrom(file, 12, NOTHING);
            && scan.Scanned? && scan.notes.format.Some? && Present(file, scan.notes)
            && CopiesOf(file, scan.notes) == Copies(Pick(cs, FMT)[0].Zeroed().Bytes(), Concat(ZeroedAll(Others(cs))),
                                                    Pick(cs, DATA)[0].Zeroed().Bytes())
  {
    NotesOf(file, cs);
  }

  /** Scanning the output again notes ranges that hold the same format, other chunks and sample data as in the input. */
  lemma OutputScansTheSame(file: seq<byte>, cs: seq<Chunk>, positions: seq<nat>)
    requires Sound(cs) && |positions| <= Markers.ROOM
    requires |file| == 12 + |Concat(cs)| && file[12..] == Concat(cs)
    ensures var output := MarkedFile(cs, positions);
            var before, after := ScanFrom(file, 12, NOTHING), ScanFrom(output, 12, NOTHING);
            && before.Scanned? && before.notes.format.Some? && Present(file, before.notes)
            && after.Scanned? && after.notes.format.Some? && Present(output, after.notes)
            && CopiesOf(output, after.notes) == CopiesOf(file, before.notes)
  {
    MarkedIsSound(cs, positions);
    SoundCopies(file, cs);
    SoundCopies(MarkedFile(cs, positions), Marked(cs, positions));
    assert ZeroedAll(ZeroedAll(Others(cs))) == ZeroedAll(Others(cs));
  }

  /** Where the output has its cue points: behind the header and the format chunk. */
  function CueOffset(cs: seq<Chunk>): nat
    requires Sound(cs)
  {
    12 + |Pick(cs, FMT)[0].Bytes()|
  }

  /** The cue point at a file offset, field by field: identifier, play order, chunk, chunk start, block start, frame. */
  predicate ShowsCuePoint(file: seq<byte>, at: nat, id: nat, position: nat) {
    && at + 24 <= |file|
    && U32(file[at..at + 4]) == id && U32(file[at + 4..at + 8]) == 0
    && Spells(file[at + 8..at + 12], "data")
    && U32(file[at + 12..at + 16]) == 0 && U32(file[at + 16..at + 20]) == 0
    && U32(file[at + 20..at + 24]) == position
  }

  /** A cue chunk at a file offset: its identifier, size and count, and its cue points, numbered from 1. */
  predicate ShowsCuePoints(file: seq<byte>, at: nat, positions: seq<nat>) {
    var n := |positions|;
    && at + 12 + 24 * n <= |file|
    && Spells(file[at..at + 4], "cue ") && U32(file[at + 4..at + 8]) == 4 + 24 * n && U32(file[at + 8..at + 12]) == n
    && forall i :: 0 <= i < n ==> ShowsCuePoint(file, at + 12 + 24 * i, i + 1, positions[i])
  }

  lemma PointShows(file: seq<byte>, at: nat, i: nat, position: nat)
    requires Has(file, at, CuePoint(i, position)) && i + 1 < TWO_TO_32 && position < TWO_TO_32
    ensures ShowsCuePoint(file, at, i + 1, position)
  {
    var b := CuePoint(i, position);
    SliceOfHas(file, at, b, 0, 4);
    SliceOfHas(file, at, b, 4, 8);
    SliceOfHas(file, at, b, 8, 12);
    SliceOfHas(file, at, b, 12, 16);
    SliceOfHas(file, at, b, 16, 20);
    SliceOfHas(file, at, b, 20, 24);
    PointFields(i, position);
    Le32Reads(i + 1);
    Le32Reads(0);
    Le32Reads(position);
    IdsSpelled();
  }

  lemma PointFields(i: nat, position: nat)
    ensures var b := CuePoint(i, position);
            && b[0..4] == Le32(i + 1) && b[4..8] == b[12..16] == b[16..20] == Le32(0)
            && b[8..12] == DATA && b[20..24] == Le32(position)
  {
  }

  lemma SliceOfHas(file: seq<byte>, at: nat, b: seq<byte>, from: nat, to: nat)
    requires Has(file, at, b) && from <= to <= |b|
    ensures file[at + from..at + to] == b[from..to]
  {
    SliceOfSlice(file, at, at + |b|, from, to);
  }

  lemma SliceOfSlice(s: seq<byte>, start: nat, end: nat, from: nat, to: nat)
    requires start <= end <= |s| && from <= to <= end - start
    ensures s[start..end][from..to] == s[start + from..start + to]
  {
    var left, right := s[start..end][from..to], s[start + from..start + to];
    forall k | 0 <= k < to - from ensures left[k] == right[k] {
      assert left[k] == s[start..end][from + k];
    }
  }

  lemma BodyShows(file: seq<byte>, at: nat, positions: seq<nat>, count: seq<byte>, points: seq<byte>)
    requires |positions| <= Markers.ROOM && (forall i :: 0 <= i < |positions| ==> positions[i] < TWO_TO_32)
    requires |count| == 4 && points == Flat(Points(positions)) && |points| == 24 * |positions|
    requires Has(file, at + 8, count + points)
    ensures Has(file, at + 8, count)
    ensures forall i :: 0 <= i < |positions| ==> ShowsCuePoint(file, at + 12 + 24 * i, i + 1, positions[i])
  {
    HasBoth(file, at + 8, count, points);
    forall i | 0 <= i < |positions| ensures ShowsCuePoint(file, at + 12 + 24 * i, i + 1, positions[i]) {
      PointInBody(file, at + 12, positions, points, i, 24 * i);
    }
  }

  lemma PointInBody(file: seq<byte>, at: nat, positions: seq<nat>, points: seq<byte>, i: nat, from: nat)
    requires i < |positions| <= Markers.ROOM && positions[i] < TWO_TO_32
    requires points == Flat(Points(positions)) && Has(file, at, points) && from == 24 * i
    ensures ShowsCuePoint(file, at + from, i + 1, positions[i])
  {
    PartAt(Points(positions), i, from);
    SliceOfHas(file, at, points, from, from + 24);
    PointShows(file, at + from, i, positions[i]);
  }

  /**
   Reading the cue chunk of the output file, all fields of all cue points: identifiers that count from 1, and so
   differ, and the positions of the markers.
   */
  lemma OutputCueReads(cs: seq<Chunk>, positions: seq<nat>)
    requires Sound(cs) && |positions| <= Markers.ROOM
    requires forall i :: 0 <= i < |positions| ==> positions[i] < TWO_TO_32
    ensures ShowsCuePoints(MarkedFile(cs, positions), CueOffset(cs), positions)
  {
    CueInOutput(cs, positions);
    ChunkShows(MarkedFile(cs, positions), CueOffset(cs), positions);
  }

  /** The same for every file that is rewritten: the cue chunk stands behind the format and its extra bytes. */
  lemma CuePointsShown(file: seq<byte>, positions: seq<nat>)
    requires Rewrite(file, positions).Written? && (forall i :: 0 <= i < |positions| ==> positions[i] < TWO_TO_32)
    ensures ReadInput(file).Ready? && Present(file, ReadInput(file).notes)
    ensures ShowsCuePoints(Rewrite(file, positions).output, 36 + |ReadInput(file).notes.extra.Copied(file)|, positions)
  {
    WrittenIsOutput(file, positions);
    var n := ReadInput(file).notes;
    CueInBody(file, n, positions);
    ChunkShows(Output(file, n, positions), 36 + |n.extra.Copied(file)|, positions);
  }

  lemma WrittenIsOutput(file: seq<byte>, positions: seq<nat>)
    requires Rewrite(file, positions).Written?
    ensures ReadInput(file).Ready? && 0 < |positions| <= Markers.ROOM
    ensures var n := ReadInput(file).notes;
            && |file| >= 12 && n.format.Some? && |n.format.value| == 24 && Present(file, n)
            && Rewrite(file, positions).output == Output(file, n, positions)
  {
    FormatSize(file, 12, NOTHING);
  }

  lemma CueInBody(file: seq<byte>, n: Notes, positions: seq<nat>)
    requires |file| >= 12 && n.format.Some? && |n.format.value| == 24 && Present(file, n)
    ensures Has(Output(file, n, positions), 36 + |n.extra.Copied(file)|, CueChunk(positions).Bytes())
  {
    SecondPart(HeaderFrom(file, Wrap32(DataSize(n, |positions|))), n.format.value + n.extra.Copied(file),
        CueChunk(positions).Bytes(), CopiedAll(file, n.others), n.data.Copied(file), Output(file, n, positions),
        36 + |n.extra.Copied(file)|);
  }

  lemma ChunkShows(file: seq<byte>, at: nat, positions: seq<nat>)
    requires |positions| <= Markers.ROOM && (forall i :: 0 <= i < |positions| ==> positions[i] < TWO_TO_32)
    requires Has(file, at, CueChunk(positions).Bytes())
    ensures ShowsCuePoints(file, at, positions)
  {
    var c := CueChunk(positions);
    HasParts(file, at, c);
    PointsLength(positions);
    BodyShows(file, at, positions, Le32(|positions|), Flat(Points(positions)));
    CueHead(file, at, |positions|, |c.body|);
  }

  lemma CueHead(file: seq<byte>, at: nat, n: nat, size: nat)
    requires n <= Markers.ROOM && size == 4 + 24 * n
    requires Has(file, at, CUE) && Has(file, at + 4, Le32(size)) && Has(file, at + 8, Le32(n))
    ensures Spells(file[at..at + 4], "cue ") && U32(file[at + 4..at + 8]) == size && U32(file[at + 8..at + 12]) == n
  {
    Le32Reads(n);
    Le32Reads(size);
    IdsSpelled();
  }

  lemma CueInOutput(cs: seq<Chunk>, positions: seq<nat>)
    requires Sound(cs)
    ensures Has(MarkedFile(cs, positions), CueOffset(cs), CueChunk(positions).Bytes())
  {
    var f, d := Pick(cs, FMT)[0].Zeroed().Bytes(), Pick(cs, DATA)[0].Zeroed().Bytes();
    MarkedBytes(cs, positions);
    FormatLength(cs);
    SecondInFile(f, CueChunk(positions).Bytes(), Concat(ZeroedAll(Others(cs))), d, Concat(Marked(cs, positions)),
                 CueOffset(cs));
  }

  lemma FormatLength(cs: seq<Chunk>)
    requires Sound(cs)
    ensures CueOffset(cs) == 12 + |Pick(cs, FMT)[0].Zeroed().Bytes()|
  {
  }

  lemma SecondInFile(f: seq<byte>, c: seq<byte>, o: seq<byte>, d: seq<byte>, chunks: seq<byte>, at: nat)
    requires chunks == f + c + o + d && at == 12 + |f|
    ensures Has(WithHeader(chunks), at, c)
  {
    Between(Header(Wrap32(4 + |chunks|)), f, c, o, d, chunks);
  }

  lemma SecondPart(h: seq<byte>, f: seq<byte>, c: seq<byte>, o: seq<byte>, d: seq<byte>, file: seq<byte>, at: nat)
    requires file == h + (f + c + o + d) && at == |h| + |f|
    ensures Has(file, at, c)
  {
    Between(h, f, c, o, d, f + c + o + d);
  }

  lemma Between(h: seq<byte>, f: seq<byte>, c: seq<byte>, o: seq<byte>, d: seq<byte>, chunks: seq<byte>)
    requires chunks == f + c + o + d
    ensures Has(h + chunks, |h| + |f|, c)
  {
    assert (h + chunks)[|h| + |f|..|h| + |f| + |c|] == c;
  }

  /** Marking twice leaves the markers of the second time only. */
  lemma MarkedTwice(cs: seq<Chunk>, first: seq<nat>, second: seq<nat>)
    requires Sound(cs) && |first| <= Markers.ROOM
    ensures Sound(Marked(cs, first)) && Marked(Marked(cs, first), second) == Marked(cs, second)
  {
    MarkedIsSound(cs, first);
    var others := ZeroedAll(Others(cs));
    assert ZeroedAll(others) == others;
  }

  /**
   An output that says that nothing follows the file type is refused as an input, and any other one is
   read like a sound file.
   */
  lemma MarkedAgain(cs: seq<Chunk>, first: seq<nat>, second: seq<nat>)
    requires Sound(cs) && |first| <= Markers.ROOM
    ensures Rewrite(MarkedFile(cs, first), second) ==
            if Wrap32(MarkedSize(cs, |first|)) == 0 then Failed else ResultFor(cs, second)
  {
    var chunks := Concat(Marked(cs, first));
    MarkedLength(cs, first);
    FieldShifts(|chunks|);
    if Wrap32(|chunks|) == 0 {
      EmptyField(Wrap32(4 + |chunks|), chunks);
    } else {
      MarkedReadAgain(cs, first, second, Wrap32(4 + |chunks|));
    }
  }

  lemma MarkedReadAgain(cs: seq<Chunk>, first: seq<nat>, second: seq<nat>, declared: nat)
    requires Sound(cs) && |first| <= Markers.ROOM && Declares(declared)
    ensures Rewrite(Header(declared) + Concat(Marked(cs, first)), second) == ResultFor(cs, second)
  {
    MarkedTwice(cs, first, second);
    SoundFileIsMarked(Header(declared) + Concat(Marked(cs, first)), declared, Marked(cs, first), second);
  }

  lemma FieldShifts(size: nat)
    ensures Wrap32(4 + size) == 4 <==> Wrap32(size) == 0
  {
  }

  lemma EmptyField(declared: nat, chunks: seq<byte>)
    requires declared == 4
    ensures |Header(declared) + chunks| >= 12 && !HeaderOk(Header(declared) + chunks)
  {
    SizeField(declared, chunks);
  }

  /**
   A second run replaces the first one's cue points: it gives what it would have given on
   the original file, so with the same markers it changes nothing. That is so if and only if
   the size of the first output's chunks is no multiple of 2^32, or there are no markers.
   */
  lemma SecondRunWins(file: seq<byte>, declared: nat, cs: seq<Chunk>, first: seq<nat>, second: seq<nat>)
    requires Sound(cs) && Declares(declared) && 0 < |first| <= Markers.ROOM
    requires file == Header(declared) + Concat(cs)
    ensures Rewrite(file, first) == Written(MarkedFile(cs, first))
    ensures Rewrite(MarkedFile(cs, first), second) == Rewrite(file, second) <==>
            (second == [] || MarkedSize(cs, |first|) % TWO_TO_32 != 0)
  {
    SoundFileIsMarked(file, declared, cs, first);
    SoundFileIsMarked(file, declared, cs, second);
    MarkedAgain(cs, first, second);
  }

  // An input near the limit of 32 bits

  /** A format chunk of PCM data and sample data of the given size. */
  function Silence(size: nat): seq<Chunk> {
    [Chunk(FMT, [1] + seq(15, _ => 0), 0), Chunk(DATA, seq(size, _ => 0), 0)]
  }

  lemma FormatAndData(f: Chunk, d: Chunk)
    requires f.id == FMT && d.id == DATA
    ensures Pick([f, d], FMT) == [f] && Pick([f, d], DATA) == [d] && Others([f, d]) == []
    ensures Concat([f, d]) == f.Bytes() + d.Bytes()
  {
    IdsDiffer();
    PickOf([f], [d], FMT);
    PickOf([f], [d], DATA);
    OthersOf([f], [d]);
    ConcatOf([f], [d]);
    assert [f] + [d] == [f, d];
    PickSingle(f, FMT);
    PickSingle(d, FMT);
    PickSingle(f, DATA);
    PickSingle(d, DATA);
    ConcatOne(f);
    ConcatOne(d);
  }

  lemma SilenceIsSound(size: nat)
    requires size < TWO_TO_32 && size % 2 == 0
    ensures Sound(Silence(size))
    ensures |Concat(Silence(size))| == 32 + size && MarkedSize(Silence(size), 1) == 68 + size
  {
    var f, d := Silence(size)[0], Silence(size)[1];
    TwoBytes(f.body[..2]);
    FormatAndData(f, d);
    assert Silence(size) == [f, d];
  }

  /** With one marker the size field of the output says 4 instead of 2^32 + 4, and a second run refuses that output. */
  predicate Misrewritten(file: seq<byte>) {
    var outcome := Rewrite(file, [0]);
    outcome.Written? && SaysFour(outcome.output) && Rewrite(outcome.output, [0]) == Failed
  }

  predicate SaysFour(output: seq<byte>) {
    |output| - 8 == TWO_TO_32 + 4 && U32(output[4..8]) == 4
  }

  lemma FullLap(cs: seq<Chunk>, file: seq<byte>, declared: nat, output: seq<byte>)
    requires Sound(cs) && Declares(declared) && file == Header(declared) + Concat(cs)
    requires MarkedSize(cs, 1) == TWO_TO_32 && output == MarkedFile(cs, [0])
    ensures Rewrite(file, [0]) == Written(output) && Rewrite(output, [0]) == Failed && SaysFour(output)
  {
    SoundFileIsMarked(file, declared, cs, [0]);
    MarkedSizeField(cs, [0]);
    FieldWraps(output);
    MarkedAgain(cs, [0], [0]);
  }

  lemma FieldWraps(output: seq<byte>)
    requires FieldOf(output, TWO_TO_32 + 4)
    ensures SaysFour(output)
  {
  }

  lemma Fails(file: seq<byte>, output: seq<byte>)
    requires Rewrite(file, [0]) == Written(output) && Rewrite(output, [0]) == Failed && SaysFour(output)
    ensures Misrewritten(file)
  {
  }

  /** An input for which both happens, although its own size fits 32 bits. */
  lemma LongFileFails(size: nat)
    requires size == 0xFFFF_FFBC
    ensures Declares(4 + |Concat(Silence(size))|)
    ensures Misrewritten(Header(4 + |Concat(Silence(size))|) + Concat(Silence(size)))
  {
    SilenceIsSound(size);
    var file := Header(4 + |Concat(Silence(size))|) + Concat(Silence(size));
    FullLap(Silence(size), file, 4 + |Concat(Silence(size))|, MarkedFile(Silence(size), [0]));
    Fails(file, MarkedFile(Silence(size), [0]));
  }
}
