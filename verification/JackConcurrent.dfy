/**
 One writer thread and one reader thread on a JACK ring buffer.

 Every snapshot of the other side's pointer, every byte copied and every pointer
 store is a step of its own, and a schedule may interleave the steps of the two
 threads in any order. Either thread may also take a vector of slots, store to them or
 load from them in any order and as often as it likes, and then advance its pointer.
 Shared memory is sequentially consistent.
 */
module JackConcurrent {
  import opened MachineInt
  import opened JackSpace
  import opened JackVectors
  import opened Regions
  import opened RingBuffer

  /** The two entries of a vector of slots. */
  type Slots = (Region, Region)

  /**
   A write call in progress: k of its n1 + n2 bytes are copied, the first n1 stored in stage
   one. Or a write vector in use, with the bytes that the thread has stored through it.
   */
  datatype Writer =
    | WriterIdle
    | Writing(src: seq<byte>, n1: nat, n2: nat, second: bool, k: nat)
    | Filling(space: Slots, stored: map<nat, byte>)

  /**
   A read or peek call in progress; base is the pointer its current stage copies from. Or a
   read vector in use.
   */
  datatype Reader =
    | ReaderIdle
    | Reading(peek: bool, n1: nat, n2: nat, second: bool, base: nat, dest: seq<byte>)
    | Looking(data: Slots)

  datatype Peeked = Peeked(position: nat, bytes: seq<byte>)

  /**
   The shared buffer and pointers, both threads' locals, and the history: bytes
   accepted by write calls and advances, bytes handed over by read calls and advances,
   results of peeks and of loads through a vector, and the totals published through each
   pointer.
   */
  datatype State = State(
    g: Geometry, buf: seq<byte>, wp: nat, rp: nat,
    writer: Writer, reader: Reader,
    accepted: seq<byte>, received: seq<byte>, peeks: seq<Peeked>,
    written: nat, consumed: nat)

  datatype Event =
    | CallWrite(src: seq<byte>)
    | StepWriter
    | TakeWriteVector
    | Store(i: nat, x: byte)
    | AdvanceWriter(n: nat)
    | CallRead(cnt: nat, peek: bool)
    | StepReader
    | TakeReadVector
    | Load(i: nat)
    | AdvanceReader(n: nat)

  function Init(g: Geometry, buf: seq<byte>): State {
    State(g, buf, 0, 0, WriterIdle, ReaderIdle, [], [], [], 0, 0)
  }

  // The writer thread

  /** A call is about to copy bytes in two parts. */
  function Accepting(s: State, src: seq<byte>, bytes: seq<byte>, n1: nat, n2: nat): State {
    s.(writer := Writing(src, n1, n2, false, 0), accepted := s.accepted + bytes)
  }

  /** Entering jack_ringbuffer_write: the snapshot of the read pointer fixes what is accepted. */
  function BeginWrite(s: State, src: seq<byte>): State
    requires s.writer.WriterIdle?
  {
    var free := WriteSpace(s.g, s.wp, s.rp);
    if free == 0 then s
    else
      var toWrite := if |src| > free then free else |src|;
      var (n1, n2) := Split(s.g, s.wp, toWrite);
      Accepting(s, src, src[..toWrite], n1, n2)
  }

  /** Bytes copied before the current stage, and by its end. */
  function StageStart(second: bool, n1: nat): nat {
    if second then n1 else 0
  }

  function StageEnd(second: bool, n1: nat, n2: nat): nat {
    if second then n1 + n2 else n1
  }

  function StageSize(second: bool, n1: nat, n2: nat): nat {
    if second then n2 else n1
  }

  predicate WriterCopying(w: Writer) {
    w.Writing? && w.k < StageEnd(w.second, w.n1, w.n2)
  }

  predicate WriterCanStep(s: State) {
    && s.writer.Writing?
    && (WriterCopying(s.writer) ==>
        0 <= s.wp + s.writer.k - StageStart(s.writer.second, s.writer.n1) < |s.buf| && s.writer.k < |s.writer.src|)
  }

  /** The next byte of the call sits in the given slot. */
  function Copied(s: State, slot: int, x: byte): State
    requires s.writer.Writing? && 0 <= slot < |s.buf|
  {
    s.(buf := s.buf[slot := x], writer := s.writer.(k := s.writer.k + 1))
  }

  /** The write pointer has moved over the bytes of the current stage. */
  function StageStored(s: State, np: nat): State
    requires s.writer.Writing?
  {
    var w := s.writer;
    s.(wp := np, written := s.written + StageSize(w.second, w.n1, w.n2),
       writer := if !w.second && w.n2 > 0 then w.(second := true) else WriterIdle)
  }

  /** One byte copied, or one store to the write pointer. */
  function WriterStep(s: State): State
    requires WriterCanStep(s)
  {
    var w := s.writer;
    if WriterCopying(w) then Copied(s, s.wp + w.k - StageStart(w.second, w.n1), w.src[w.k])
    else StageStored(s, Advance(s.g, s.wp, StageSize(w.second, w.n1, w.n2)))
  }

  // The reader thread

  /** Entering jack_ringbuffer_read or jack_ringbuffer_peek: the snapshot of the write pointer. */
  function BeginRead(s: State, cnt: nat, peek: bool): State
    requires s.reader.ReaderIdle?
  {
    var avail := ReadSpace(s.g, s.wp, s.rp);
    if avail == 0 then s
    else
      var toRead := if cnt > avail then avail else cnt;
      var (n1, n2) := Split(s.g, s.rp, toRead);
      s.(reader := Reading(peek, n1, n2, false, s.rp, []))
  }

  predicate ReaderCopying(r: Reader) {
    r.Reading? && |r.dest| < StageEnd(r.second, r.n1, r.n2)
  }

  predicate ReaderCanStep(s: State) {
    && s.reader.Reading?
    && (ReaderCopying(s.reader) ==>
        0 <= s.reader.base + |s.reader.dest| - StageStart(s.reader.second, s.reader.n1) < |s.buf|)
  }

  function Fetched(s: State, x: byte): State
    requires s.reader.Reading?
  {
    s.(reader := s.reader.(dest := s.reader.dest + [x]))
  }

  /** The first stage of a call with two is over. */
  function StageRead(s: State, np: nat): State
    requires s.reader.Reading?
  {
    var t := s.(reader := s.reader.(base := np, second := true));
    if s.reader.peek then t else t.(rp := np, consumed := s.consumed + s.reader.n1)
  }

  /** The call is over: its bytes join what the reader thread has received, or are a peek. */
  function CallDone(s: State, np: nat): State
    requires s.reader.Reading?
  {
    var r := s.reader;
    if r.peek then s.(reader := ReaderIdle, peeks := s.peeks + [Peeked(s.consumed, r.dest)])
    else s.(reader := ReaderIdle, rp := np, consumed := s.consumed + StageSize(r.second, r.n1, r.n2),
            received := s.received + r.dest)
  }

  /** One byte copied, or one store to the read pointer; a peek moves only its private copy. */
  function ReaderStep(s: State): State
    requires ReaderCanStep(s)
  {
    var r := s.reader;
    if ReaderCopying(r) then Fetched(s, s.buf[r.base + |r.dest| - StageStart(r.second, r.n1)])
    else
      var base := Advance(s.g, r.base, StageSize(r.second, r.n1, r.n2));
      if !r.second && r.n2 > 0 then StageRead(s, base) else CallDone(s, base)
  }

  // Vectors

  function Total(v: Slots): nat {
    v.0.size + v.1.size
  }

  /** The buffer index of place i of a vector. */
  function Place(v: Slots, i: nat): nat {
    if i < v.0.size then v.0.start + i else v.1.start + i - v.0.size
  }

  predicate Fits(v: Slots, size: nat) {
    v.0.start + v.0.size <= size && v.1.start + v.1.size <= size
  }

  /** What is in the first n places of a vector. */
  function InPlaces(buf: seq<byte>, v: Slots, n: nat): (bytes: seq<byte>)
    requires Fits(v, |buf|) && n <= Total(v)
    ensures |bytes| == n && forall i :: 0 <= i < n ==> bytes[i] == buf[Place(v, i)]
  {
    seq(n, i requires 0 <= i < n => buf[Place(v, i)])
  }

  /** jack_ringbuffer_get_write_vector. */
  function BeginFill(s: State): State {
    s.(writer := Filling(VectorAt(s.g, s.wp, WriteSpace(s.g, s.wp, s.rp)), map[]))
  }

  function StoreAt(s: State, i: nat, x: byte): State
    requires s.writer.Filling? && Fits(s.writer.space, |s.buf|) && i < Total(s.writer.space)
  {
    s.(buf := s.buf[Place(s.writer.space, i) := x], writer := s.writer.(stored := s.writer.stored[i := x]))
  }

  /** The write pointer has moved on, and what the slots hold has entered the stream. */
  function Published(s: State, data: seq<byte>, np: nat): State {
    s.(wp := np, written := s.written + |data|, accepted := s.accepted + data, writer := WriterIdle)
  }

  /** jack_ringbuffer_write_advance, at the end of the use of a vector. */
  function EndFill(s: State, n: nat): State
    requires s.writer.Filling? && Fits(s.writer.space, |s.buf|) && n <= Total(s.writer.space)
  {
    Published(s, InPlaces(s.buf, s.writer.space, n), Advance(s.g, s.wp, n))
  }

  /** jack_ringbuffer_get_read_vector. */
  function BeginLook(s: State): State {
    s.(reader := Looking(VectorAt(s.g, s.rp, ReadSpace(s.g, s.wp, s.rp))))
  }

  /** A load through a vector is a peek of one byte. */
  function Seen(s: State, position: nat, bytes: seq<byte>): State {
    s.(peeks := s.peeks + [Peeked(position, bytes)])
  }

  function LoadAt(s: State, i: nat): State
    requires s.reader.Looking? && Fits(s.reader.data, |s.buf|) && i < Total(s.reader.data)
  {
    Seen(s, s.consumed + i, [s.buf[Place(s.reader.data, i)]])
  }

  /** The read pointer has moved on over bytes that the thread has had in its vector. */
  function Released(s: State, data: seq<byte>, np: nat): State {
    s.(rp := np, consumed := s.consumed + |data|, received := s.received + data, reader := ReaderIdle)
  }

  /** jack_ringbuffer_read_advance, at the end of the use of a vector. */
  function EndLook(s: State, n: nat): State
    requires s.reader.Looking? && Fits(s.reader.data, |s.buf|) && n <= Total(s.reader.data)
  {
    Released(s, InPlaces(s.buf, s.reader.data, n), Advance(s.g, s.rp, n))
  }

  // Schedules

  predicate Enabled(s: State, e: Event) {
    match e
    case CallWrite(_) => s.writer.WriterIdle?
    case StepWriter => WriterCanStep(s)
    case TakeWriteVector => s.writer.WriterIdle?
    case Store(i, _) => s.writer.Filling? && Fits(s.writer.space, |s.buf|) && i < Total(s.writer.space)
    case AdvanceWriter(n) => s.writer.Filling? && Fits(s.writer.space, |s.buf|) && n <= Total(s.writer.space)
    case CallRead(_, _) => s.reader.ReaderIdle?
    case StepReader => ReaderCanStep(s)
    case TakeReadVector => s.reader.ReaderIdle?
    case Load(i) => s.reader.Looking? && Fits(s.reader.data, |s.buf|) && i < Total(s.reader.data)
    case AdvanceReader(n) => s.reader.Looking? && Fits(s.reader.data, |s.buf|) && n <= Total(s.reader.data)
  }

  function Next(s: State, e: Event): State
    requires Enabled(s, e)
  {
    match e
    case CallWrite(src) => BeginWrite(s, src)
    case StepWriter => WriterStep(s)
    case TakeWriteVector => BeginFill(s)
    case Store(i, x) => StoreAt(s, i, x)
    case AdvanceWriter(n) => EndFill(s, n)
    case CallRead(cnt, peek) => BeginRead(s, cnt, peek)
    case StepReader => ReaderStep(s)
    case TakeReadVector => BeginLook(s)
    case Load(i) => LoadAt(s, i)
    case AdvanceReader(n) => EndLook(s, n)
  }

  /** The events of a schedule can all be taken in order from s and lead to t. */
  predicate Runs(s: State, schedule: seq<Event>, t: State)
    decreases |schedule|
  {
    if |schedule| == 0 then t == s
    else Enabled(s, schedule[0]) && Runs(Next(s, schedule[0]), schedule[1..], t)
  }

  // What holds in every reachable state

  /** Bytes of the write call in progress that are not yet published. */
  ghost function Unpublished(w: Writer): nat {
    if !w.Writing? then 0 else if w.second then w.n2 else w.n1 + w.n2
  }

  /** Bytes of the current write call stored in the buffer but not yet published. */
  ghost function Stored(w: Writer): int {
    if !w.Writing? then 0 else if w.second then w.k - w.n1 else w.k
  }

  /** Bytes of the read or peek in progress that its pointer has not passed yet. */
  ghost function Unconsumed(r: Reader): nat {
    if !r.Reading? then 0 else if r.second && !r.peek then r.n2 else r.n1 + r.n2
  }

  /** Bytes of the read in progress that are copied and already passed by the pointer. */
  ghost function Passed(r: Reader): nat {
    if r.Reading? && r.second && !r.peek then r.n1 else 0
  }

  /** The slot k places after a pointer, for at most one lap. */
  function SlotOf(g: Geometry, x: nat): int {
    if x < g.size then x else x - g.size
  }

  /** The given bytes are the stream's bytes from position on. */
  ghost predicate At(bytes: seq<byte>, stream: seq<byte>, position: int) {
    && 0 <= position && position + |bytes| <= |stream|
    && forall i :: 0 <= i < |bytes| ==> bytes[i] == stream[position + i]
  }

  ghost predicate BufferInv(s: State) {
    && Valid(s.g)
    && |s.buf| == s.g.size
    && s.consumed <= s.written
    && s.written + Unpublished(s.writer) == |s.accepted|
    && |s.accepted| <= s.consumed + s.g.size - 1
    && s.rp < s.g.size
    && s.wp == SlotOf(s.g, s.rp + s.written - s.consumed)
  }

  /** The stream bytes from..to sit in consecutive slots, cyclically, starting at rp. */
  ghost predicate Holds(g: Geometry, buf: seq<byte>, rp: nat, stream: seq<byte>, from: nat, to: nat)
    requires rp < g.size == |buf| && from <= to <= |stream| && to <= from + g.size
  {
    forall j :: from <= j < to ==> buf[SlotOf(g, rp + j - from)] == stream[j]
  }

  /** Filling the next slot with the next stream byte disturbs none of the others. */
  lemma HoldsOneMore(g: Geometry, buf: seq<byte>, rp: nat, stream: seq<byte>, from: nat, to: nat)
    requires rp < g.size == |buf| && from <= to < |stream| && to < from + g.size
    requires Holds(g, buf, rp, stream, from, to)
    ensures Holds(g, buf[SlotOf(g, rp + to - from) := stream[to]], rp, stream, from, to + 1)
  {
  }

  /** Every published or already stored byte sits in the slot of its stream position. */
  ghost predicate ContentInv(s: State)
    requires BufferInv(s)
  {
    && 0 <= Stored(s.writer) <= Unpublished(s.writer)
    && Holds(s.g, s.buf, s.rp, s.accepted, s.consumed, s.written + Stored(s.writer))
  }

  ghost predicate WriterInv(s: State)
    requires BufferInv(s)
  {
    s.writer.Writing? ==>
      var w := s.writer;
      && w.n1 + w.n2 <= |w.src|
      && w.n1 + w.n2 <= |s.accepted|
      && (if w.second then w.n1 <= w.k && s.wp == 0 && 0 < w.n2 < s.g.size
          else w.k <= w.n1 && s.wp + w.n1 <= s.g.size && (w.n2 > 0 ==> s.wp + w.n1 == s.g.size))
      && forall i :: 0 <= i < w.n1 + w.n2 ==> w.src[i] == s.accepted[|s.accepted| - w.n1 - w.n2 + i]
  }

  ghost predicate ReaderInv(s: State)
    requires BufferInv(s)
  {
    && (s.reader.Reading? ==>
        var r := s.reader;
        && s.consumed + Unconsumed(r) <= s.written
        && |r.dest| <= r.n1 + r.n2
        && r.base < s.g.size
        && (if r.second then r.n1 <= |r.dest| && r.base == 0 && 0 < r.n2 < s.g.size
            else (&& |r.dest| <= r.n1 && r.base == s.rp && r.base + r.n1 <= s.g.size
                  && (r.n2 > 0 ==> r.base + r.n1 == s.g.size)))
        && (r.second ==> if r.peek then s.rp + r.n1 == s.g.size else s.rp == 0)
        && (r.second && !r.peek ==> s.consumed >= r.n1)
        && At(r.dest, s.accepted, s.consumed - Passed(r)))
  }

  ghost predicate HistoryInv(s: State)
    requires BufferInv(s)
  {
    && |s.received| == s.consumed - Passed(s.reader)
    && At(s.received, s.accepted, 0)
    && forall p :: p in s.peeks ==> p.position + |p.bytes| <= s.written && At(p.bytes, s.accepted, p.position)
  }

  /** What holds of the calls, whether or not a vector is in use. */
  ghost predicate Core(s: State) {
    BufferInv(s) && ContentInv(s) && WriterInv(s) && ReaderInv(s) && HistoryInv(s)
  }

  /** A vector of slots from a pointer on, no more than there is room for. */
  ghost predicate Offers(g: Geometry, v: Slots, ptr: nat, room: int) {
    Total(v) <= room < g.size && ptr < g.size && v == Describe(ptr, Total(v), g.size)
  }

  /** The vectors in use lie behind their pointers, and the write vector still holds what was stored through it. */
  ghost predicate VectorInv(s: State) {
    && (s.writer.Filling? ==>
        && Offers(s.g, s.writer.space, s.wp, s.g.size - 1 - (s.written - s.consumed))
        && Keeps(s.buf, s.writer.space, s.writer.stored))
    && (s.reader.Looking? ==> Offers(s.g, s.reader.data, s.rp, s.written - s.consumed))
  }

  ghost predicate Keeps(buf: seq<byte>, v: Slots, stored: map<nat, byte>) {
    Fits(v, |buf|) && forall i :: i in stored ==> i < Total(v) && buf[Place(v, i)] == stored[i]
  }

  ghost predicate Inv(s: State) {
    Core(s) && VectorInv(s)
  }

  lemma InitInv(g: Geometry, buf: seq<byte>)
    requires Valid(g) && |buf| == g.size
    ensures Inv(Init(g, buf))
  {
  }

  /** The spaces computed from the pointers are the true counts. */
  lemma DistanceIsCount(s: State)
    requires BufferInv(s)
    ensures s.wp < s.g.size
    ensures ReadSpace(s.g, s.wp, s.rp) == s.written - s.consumed
    ensures WriteSpace(s.g, s.wp, s.rp) == s.g.size - 1 - (s.written - s.consumed)
  {
    SpacesMeasureDistance(s.g, s.wp, s.rp);
  }

  lemma StartWritingContents(s: State, src: seq<byte>, n1: nat, n2: nat)
    requires Core(s) && s.writer.WriterIdle?
    requires n1 + n2 <= |src| && n1 + n2 <= s.g.size - 1 - (s.written - s.consumed)
    requires s.wp + n1 <= s.g.size && (n2 > 0 ==> s.wp + n1 == s.g.size)
    ensures BufferInv(Accepting(s, src, src[..n1 + n2], n1, n2))
            && ContentInv(Accepting(s, src, src[..n1 + n2], n1, n2))
  {
  }

  lemma StartWritingClaims(s: State, src: seq<byte>, n1: nat, n2: nat)
    requires Core(s) && s.writer.WriterIdle?
    requires n1 + n2 <= |src| && n1 + n2 <= s.g.size - 1 - (s.written - s.consumed)
    requires s.wp + n1 <= s.g.size && (n2 > 0 ==> s.wp + n1 == s.g.size)
    ensures var t := Accepting(s, src, src[..n1 + n2], n1, n2); BufferInv(t) && WriterInv(t)
  {
  }

  /** A write call that accepts the first n1 + n2 bytes of src. */
  lemma StartWriting(s: State, src: seq<byte>, n1: nat, n2: nat)
    requires Core(s) && s.writer.WriterIdle?
    requires n1 + n2 <= |src| && n1 + n2 <= s.g.size - 1 - (s.written - s.consumed)
    requires s.wp + n1 <= s.g.size && (n2 > 0 ==> s.wp + n1 == s.g.size)
    ensures Core(Accepting(s, src, src[..n1 + n2], n1, n2))
  {
    StartWritingContents(s, src, n1, n2);
    StartWritingClaims(s, src, n1, n2);
  }

  /** What a write call accepts and how it splits it. */
  lemma WriteSplits(s: State, src: seq<byte>) returns (n1: nat, n2: nat)
    requires BufferInv(s) && s.writer.WriterIdle?
    ensures n1 + n2 == Min(|src|, s.g.size - 1 - (s.written - s.consumed))
    ensures s.wp + n1 <= s.g.size && (n2 > 0 ==> s.wp + n1 == s.g.size)
    ensures BeginWrite(s, src) == if s.written - s.consumed == s.g.size - 1 then s
            else Accepting(s, src, src[..n1 + n2], n1, n2)
  {
    DistanceIsCount(s);
    n1, n2 := SpaceSplits(s, src, WriteSpace(s.g, s.wp, s.rp));
  }

  lemma SpaceSplits(s: State, src: seq<byte>, free: nat) returns (n1: nat, n2: nat)
    requires Valid(s.g) && s.wp < s.g.size && s.writer.WriterIdle?
    requires free == WriteSpace(s.g, s.wp, s.rp) < s.g.size
    ensures n1 + n2 == Min(|src|, free)
    ensures s.wp + n1 <= s.g.size && (n2 > 0 ==> s.wp + n1 == s.g.size)
    ensures BeginWrite(s, src) == if free == 0 then s else Accepting(s, src, src[..n1 + n2], n1, n2)
  {
    SplitCovers(s.g, s.wp, Min(|src|, free));
    n1, n2 := Split(s.g, s.wp, Min(|src|, free)).0, Split(s.g, s.wp, Min(|src|, free)).1;
  }

  lemma BeginWriteCore(s: State, src: seq<byte>)
    requires Core(s) && s.writer.WriterIdle?
    ensures Core(BeginWrite(s, src))
  {
    var n1, n2 := WriteSplits(s, src);
    if s.written - s.consumed < s.g.size - 1 {
      StartWriting(s, src, n1, n2);
    }
  }

  lemma StartReading(s: State, peek: bool, n1: nat, n2: nat)
    requires Core(s) && s.reader.ReaderIdle?
    requires n1 + n2 <= s.written - s.consumed
    requires s.rp + n1 <= s.g.size && (n2 > 0 ==> s.rp + n1 == s.g.size)
    ensures Core(s.(reader := Reading(peek, n1, n2, false, s.rp, [])))
  {
  }

  lemma BeginReadCore(s: State, cnt: nat, peek: bool)
    requires Core(s) && s.reader.ReaderIdle?
    ensures Core(BeginRead(s, cnt, peek))
  {
    DistanceIsCount(s);
    var avail := ReadSpace(s.g, s.wp, s.rp);
    if avail != 0 {
      var toRead := if cnt > avail then avail else cnt;
      SplitCovers(s.g, s.rp, toRead);
      var (n1, n2) := Split(s.g, s.rp, toRead);
      StartReading(s, peek, n1, n2);
    }
  }

  /** One more byte stored concerns only the contents of the buffer. */
  lemma CopyConcernsContents(s: State, slot: nat, x: byte)
    requires Core(s) && WriterCopying(s.writer) && slot < |s.buf|
    ensures var t := Copied(s, slot, x); BufferInv(t) && WriterInv(t) && ReaderInv(t) && HistoryInv(t)
  {
  }

  lemma ContentsGrow(s: State, p: nat, slot: nat)
    requires BufferInv(s) && ContentInv(s) && s.writer.Writing? && p == s.written + Stored(s.writer)
    requires s.consumed <= p < |s.accepted| && p < s.consumed + s.g.size && Stored(s.writer) < Unpublished(s.writer)
    requires slot == SlotOf(s.g, s.rp + p - s.consumed) < |s.buf|
    ensures var t := Copied(s, slot, s.accepted[p]); BufferInv(t) && ContentInv(t)
  {
    HoldsOneMore(s.g, s.buf, s.rp, s.accepted, s.consumed, p);
    assert Stored(Copied(s, slot, s.accepted[p]).writer) == Stored(s.writer) + 1;
  }

  /** Where the writer's next byte goes: the slot of the first stream position not yet stored. */
  lemma WriterSlot(s: State) returns (p: nat, slot: nat)
    requires Core(s) && WriterCopying(s.writer)
    ensures p == s.written + Stored(s.writer) && s.consumed <= p < |s.accepted| && p < s.consumed + s.g.size
    ensures slot == SlotOf(s.g, s.rp + p - s.consumed) < |s.buf| && Stored(s.writer) < Unpublished(s.writer)
    ensures WriterCanStep(s) && WriterStep(s) == Copied(s, slot, s.accepted[p])
  {
    var w := s.writer;
    assert w.src[w.k] == s.accepted[|s.accepted| - w.n1 - w.n2 + w.k];
    p := s.written + Stored(w);
    slot := SlotOf(s.g, s.rp + p - s.consumed);
  }

  /** The slot a writer fills lies outside everything the reader may still read. */
  lemma WriterFills(s: State, p: nat, slot: nat)
    requires Core(s) && s.writer.Writing? && p == s.written + Stored(s.writer)
    requires WriterCopying(s.writer) && s.consumed <= p < |s.accepted| && p < s.consumed + s.g.size
    requires slot == SlotOf(s.g, s.rp + p - s.consumed) < |s.buf| && Stored(s.writer) < Unpublished(s.writer)
    ensures Core(Copied(s, slot, s.accepted[p]))
  {
    CopyConcernsContents(s, slot, s.accepted[p]);
    ContentsGrow(s, p, slot);
  }

  lemma WriterCopies(s: State)
    requires Core(s) && WriterCopying(s.writer)
    ensures WriterCanStep(s) && Core(WriterStep(s))
  {
    var p, slot := WriterSlot(s);
    WriterFills(s, p, slot);
  }

  lemma StageWrittenContents(s: State, np: nat)
    requires Core(s) && s.writer.Writing? && !WriterCopying(s.writer)
    requires np == SlotOf(s.g, s.wp + StageSize(s.writer.second, s.writer.n1, s.writer.n2))
    ensures BufferInv(StageStored(s, np)) && ContentInv(StageStored(s, np))
  {
  }

  /** The write pointer moves over the bytes of the stage just copied. */
  lemma StageWritten(s: State, np: nat)
    requires Core(s) && s.writer.Writing? && !WriterCopying(s.writer)
    requires np == SlotOf(s.g, s.wp + StageSize(s.writer.second, s.writer.n1, s.writer.n2))
    ensures Core(StageStored(s, np))
  {
    StageWrittenContents(s, np);
  }

  lemma WriterPublishes(s: State)
    requires Core(s) && s.writer.Writing? && !WriterCopying(s.writer)
    ensures WriterCanStep(s) && Core(WriterStep(s))
  {
    var n := StageSize(s.writer.second, s.writer.n1, s.writer.n2);
    AdvanceWraps(s.g, s.wp, n);
    StageWritten(s, Advance(s.g, s.wp, n));
  }

  /** The byte a reader is about to copy is the stream byte its call has got to. */
  lemma ReaderSees(s: State) returns (x: byte)
    requires Core(s) && ReaderCopying(s.reader)
    ensures var p := s.consumed - Passed(s.reader) + |s.reader.dest|; 0 <= p < s.written && x == s.accepted[p]
    ensures ReaderCanStep(s) && ReaderStep(s) == Fetched(s, x)
  {
    var p := s.consumed - Passed(s.reader) + |s.reader.dest|;
    assert s.buf[SlotOf(s.g, s.rp + p - s.consumed)] == s.accepted[p];
    x := s.accepted[p];
  }

  /** A byte more in the reader's destination concerns nothing else. */
  lemma FetchConcernsReader(s: State, x: byte)
    requires Core(s) && s.reader.Reading?
    ensures var t := Fetched(s, x); BufferInv(t) && ContentInv(t) && WriterInv(t) && HistoryInv(t)
  {
  }

  lemma ReaderTakes(s: State, x: byte)
    requires Core(s) && ReaderCopying(s.reader)
    requires var p := s.consumed - Passed(s.reader) + |s.reader.dest|; 0 <= p < s.written && x == s.accepted[p]
    ensures BufferInv(Fetched(s, x)) && ReaderInv(Fetched(s, x))
  {
    AtGrows(s.reader.dest, x, s.accepted, s.consumed - Passed(s.reader));
  }

  lemma AtGrows(bytes: seq<byte>, x: byte, stream: seq<byte>, position: int)
    requires At(bytes, stream, position) && position + |bytes| < |stream| && stream[position + |bytes|] == x
    ensures At(bytes + [x], stream, position)
  {
  }

  lemma ReaderCopies(s: State)
    requires Core(s) && ReaderCopying(s.reader)
    ensures ReaderCanStep(s) && Core(ReaderStep(s))
  {
    var x := ReaderSees(s);
    FetchConcernsReader(s, x);
    ReaderTakes(s, x);
  }

  /** A peek goes on to its second stage. */
  lemma FirstStagePeeked(s: State, np: nat)
    requires Core(s) && s.reader.Reading? && !s.reader.second && |s.reader.dest| == s.reader.n1 && s.reader.n2 > 0
    requires s.reader.peek && np == SlotOf(s.g, s.reader.base + s.reader.n1)
    ensures Core(StageRead(s, np))
  {
  }

  /** The read pointer moves over the first stage of a read, which has a second one. */
  lemma FirstStageRead(s: State, np: nat)
    requires Core(s) && s.reader.Reading? && !s.reader.second && |s.reader.dest| == s.reader.n1 && s.reader.n2 > 0
    requires !s.reader.peek && np == SlotOf(s.g, s.reader.base + s.reader.n1)
    ensures Core(StageRead(s, np))
  {
  }

  lemma ReadReturnsContents(s: State, np: nat)
    requires Core(s) && s.reader.Reading? && !s.reader.peek && |s.reader.dest| == s.reader.n1 + s.reader.n2
    requires s.reader.second || s.reader.n2 == 0
    requires np == SlotOf(s.g, s.reader.base + StageSize(s.reader.second, s.reader.n1, s.reader.n2))
    ensures BufferInv(CallDone(s, np)) && ContentInv(CallDone(s, np))
  {
  }

  /** A read returns: its bytes join what the reader thread has received. */
  lemma ReadReturns(s: State, np: nat)
    requires Core(s) && s.reader.Reading? && !s.reader.peek && |s.reader.dest| == s.reader.n1 + s.reader.n2
    requires s.reader.second || s.reader.n2 == 0
    requires np == SlotOf(s.g, s.reader.base + StageSize(s.reader.second, s.reader.n1, s.reader.n2))
    ensures Core(CallDone(s, np))
  {
    ReadReturnsContents(s, np);
  }

  lemma PeekReturns(s: State, np: nat)
    requires Core(s) && s.reader.Reading? && s.reader.peek && |s.reader.dest| == s.reader.n1 + s.reader.n2
    requires s.reader.second || s.reader.n2 == 0
    ensures Core(CallDone(s, np))
  {
  }

  lemma ReaderPublishes(s: State)
    requires Core(s) && s.reader.Reading? && !ReaderCopying(s.reader)
    ensures ReaderCanStep(s) && Core(ReaderStep(s))
  {
    var r := s.reader;
    var n := StageSize(r.second, r.n1, r.n2);
    AdvanceWraps(s.g, r.base, n);
    var np := Advance(s.g, r.base, n);
    if !r.second && r.n2 > 0 {
      if r.peek { FirstStagePeeked(s, np); } else { FirstStageRead(s, np); }
    } else if r.peek {
      PeekReturns(s, np);
    } else {
      ReadReturns(s, np);
    }
  }

  // The invariant and the vectors

  /** Place i of a vector from a pointer on is the slot i behind the pointer. */
  lemma PlaceIsSlot(g: Geometry, v: Slots, ptr: nat, room: int, i: nat)
    requires Offers(g, v, ptr, room) && i < Total(v)
    ensures Fits(v, g.size) && Apart(v) && Place(v, i) == SlotOf(g, ptr + i) < g.size
  {
  }

  lemma VectorOffers(g: Geometry, ptr: nat, room: nat)
    requires Valid(g) && ptr < g.size && room < g.size
    ensures Offers(g, VectorAt(g, ptr, room), ptr, room) && Fits(VectorAt(g, ptr, room), g.size)
    ensures Total(VectorAt(g, ptr, room)) == room
  {
    VectorIsDescribed(g, ptr, room);
  }

  lemma BeginFillInv(s: State)
    requires Inv(s) && s.writer.WriterIdle?
    ensures Inv(BeginFill(s)) && Total(BeginFill(s).writer.space) == s.g.size - 1 - (s.written - s.consumed)
  {
    DistanceIsCount(s);
    VectorOffers(s.g, s.wp, s.g.size - 1 - (s.written - s.consumed));
  }

  lemma ReadVectorOffers(s: State)
    requires BufferInv(s) && s.reader.ReaderIdle?
    ensures var data := BeginLook(s).reader.data;
            && Offers(s.g, data, s.rp, s.written - s.consumed) && Fits(data, s.g.size)
            && Total(data) == s.written - s.consumed
  {
    DistanceIsCount(s);
    VectorOffers(s.g, s.rp, s.written - s.consumed);
  }

  lemma LookStarts(s: State, next: State)
    requires Inv(s) && s.reader.ReaderIdle? && next.reader.Looking? && next == s.(reader := next.reader)
    requires Offers(s.g, next.reader.data, s.rp, s.written - s.consumed) && Fits(next.reader.data, s.g.size)
    ensures Inv(next)
  {
  }

  lemma BeginLookInv(s: State)
    requires Inv(s) && s.reader.ReaderIdle?
    ensures Inv(BeginLook(s)) && Total(BeginLook(s).reader.data) == s.written - s.consumed
  {
    ReadVectorOffers(s);
    LookStarts(s, BeginLook(s));
  }

  /** Storing to a free slot disturbs nothing that is published. */
  lemma FreeSlotStored(s: State, slot: nat, x: byte, i: nat, writer: Writer)
    requires Core(s) && s.writer.Filling? && writer.Filling?
    requires s.written - s.consumed + i < s.g.size && slot == SlotOf(s.g, s.wp + i) < |s.buf|
    ensures Core(s.(buf := s.buf[slot := x], writer := writer))
  {
  }

  lemma StoreInv(s: State, i: nat, x: byte)
    requires Inv(s) && s.writer.Filling? && i < Total(s.writer.space)
    ensures Enabled(s, Store(i, x)) && Inv(StoreAt(s, i, x))
  {
    var room := s.g.size - 1 - (s.written - s.consumed);
    PlaceIsSlot(s.g, s.writer.space, s.wp, room, i);
    FreeSlotStored(s, Place(s.writer.space, i), x, i, StoreAt(s, i, x).writer);
    StoreKept(s.buf, s.writer.space, s.writer.stored, i, x);
  }

  /** Different places of a vector are different slots. */
  predicate Apart(v: Slots) {
    v.1.start + v.1.size <= v.0.start || v.1.size == 0
  }

  lemma StoreKept(buf: seq<byte>, v: Slots, stored: map<nat, byte>, i: nat, x: byte)
    requires Keeps(buf, v, stored) && i < Total(v) && Apart(v)
    ensures Keeps(buf[Place(v, i) := x], v, stored[i := x])
  {
  }

  /** The bytes sit in the slots from a pointer on. */
  ghost predicate InSlots(g: Geometry, buf: seq<byte>, ptr: nat, data: seq<byte>)
    requires ptr < g.size == |buf| && |data| <= g.size
  {
    forall i :: 0 <= i < |data| ==> buf[SlotOf(g, ptr + i)] == data[i]
  }

  lemma PlacesAreSlots(g: Geometry, buf: seq<byte>, v: Slots, ptr: nat, room: int, n: nat)
    requires Offers(g, v, ptr, room) && |buf| == g.size && n <= Total(v)
    ensures Fits(v, |buf|) && InSlots(g, buf, ptr, InPlaces(buf, v, n))
  {
    assert Fits(v, |buf|);
    var data := InPlaces(buf, v, n);
    forall i | 0 <= i < |data| ensures buf[SlotOf(g, ptr + i)] == data[i] {
      PlaceIsSlot(g, v, ptr, room, i);
    }
  }

  lemma SlotsPublishedContents(s: State, data: seq<byte>, np: nat)
    requires Core(s) && s.writer.Filling? && |data| <= s.g.size - 1 - (s.written - s.consumed)
    requires s.wp < s.g.size && InSlots(s.g, s.buf, s.wp, data)
    requires np == SlotOf(s.g, s.wp + |data|)
    ensures BufferInv(Published(s, data, np)) && ContentInv(Published(s, data, np))
  {
  }

  /** Bytes that already sit in the slots behind the write pointer enter the stream. */
  lemma SlotsPublished(s: State, data: seq<byte>, np: nat)
    requires Core(s) && s.writer.Filling? && |data| <= s.g.size - 1 - (s.written - s.consumed)
    requires s.wp < s.g.size && InSlots(s.g, s.buf, s.wp, data)
    requires np == SlotOf(s.g, s.wp + |data|)
    ensures Core(Published(s, data, np))
  {
    SlotsPublishedContents(s, data, np);
  }

  lemma EndFillInv(s: State, n: nat)
    requires Inv(s) && s.writer.Filling? && n <= Total(s.writer.space)
    ensures Enabled(s, AdvanceWriter(n)) && Inv(EndFill(s, n))
  {
    PlacesAreSlots(s.g, s.buf, s.writer.space, s.wp, s.g.size - 1 - (s.written - s.consumed), n);
    AdvanceWraps(s.g, s.wp, n);
    SlotsPublished(s, InPlaces(s.buf, s.writer.space, n), Advance(s.g, s.wp, n));
  }

  /** What the reader has in its vector is the stream from the consumed total on. */
  lemma LoadedIsStream(s: State, i: nat)
    requires Inv(s) && s.reader.Looking? && i < Total(s.reader.data)
    ensures Fits(s.reader.data, |s.buf|) && s.consumed + i < s.written <= |s.accepted|
    ensures s.buf[Place(s.reader.data, i)] == s.accepted[s.consumed + i]
  {
    PlaceIsSlot(s.g, s.reader.data, s.rp, s.written - s.consumed, i);
    var j := s.consumed + i;
    assert s.buf[SlotOf(s.g, s.rp + j - s.consumed)] == s.accepted[j];
  }

  /** Part of the published stream has been seen. */
  lemma StreamSeen(s: State, position: nat, bytes: seq<byte>)
    requires Core(s) && position + |bytes| <= s.written && At(bytes, s.accepted, position)
    ensures Core(Seen(s, position, bytes))
  {
  }

  lemma LoadShows(s: State, i: nat) returns (position: nat, bytes: seq<byte>)
    requires Inv(s) && s.reader.Looking? && i < Total(s.reader.data)
    ensures position + |bytes| <= s.written && At(bytes, s.accepted, position)
    ensures Enabled(s, Load(i)) && LoadAt(s, i) == Seen(s, position, bytes)
  {
    LoadedIsStream(s, i);
    position, bytes := s.consumed + i, [s.buf[Place(s.reader.data, i)]];
  }

  lemma VectorIsStream(s: State, n: nat)
    requires Inv(s) && s.reader.Looking? && n <= Total(s.reader.data)
    ensures Fits(s.reader.data, |s.buf|) && s.consumed + n <= s.written <= |s.accepted|
    ensures InPlaces(s.buf, s.reader.data, n) == s.accepted[s.consumed..s.consumed + n]
  {
    assert Fits(s.reader.data, |s.buf|);
    var data := InPlaces(s.buf, s.reader.data, n);
    forall i | 0 <= i < |data| ensures data[i] == s.accepted[s.consumed + i] {
      LoadedIsStream(s, i);
    }
  }

  lemma LoadInv(s: State, i: nat)
    requires Inv(s) && s.reader.Looking? && i < Total(s.reader.data)
    ensures Enabled(s, Load(i)) && Inv(LoadAt(s, i))
  {
    var position, bytes := LoadShows(s, i);
    StreamSeen(s, position, bytes);
  }

  lemma SlotsReleasedContents(s: State, data: seq<byte>, np: nat)
    requires Core(s) && s.reader.Looking? && |data| <= s.written - s.consumed
    requires At(data, s.accepted, s.consumed) && np == SlotOf(s.g, s.rp + |data|)
    ensures BufferInv(Released(s, data, np)) && ContentInv(Released(s, data, np))
  {
  }

  /** The read pointer moves over stream bytes. */
  lemma SlotsReleased(s: State, data: seq<byte>, np: nat)
    requires Core(s) && s.reader.Looking? && |data| <= s.written - s.consumed
    requires At(data, s.accepted, s.consumed) && np == SlotOf(s.g, s.rp + |data|)
    ensures Core(Released(s, data, np))
  {
    SlotsReleasedContents(s, data, np);
  }

  lemma EndLookInv(s: State, n: nat)
    requires Inv(s) && s.reader.Looking? && n <= Total(s.reader.data)
    ensures Enabled(s, AdvanceReader(n)) && Inv(EndLook(s, n))
  {
    VectorIsStream(s, n);
    AdvanceWraps(s.g, s.rp, n);
    SlotsReleased(s, InPlaces(s.buf, s.reader.data, n), Advance(s.g, s.rp, n));
  }

  /** The thread is in a state to take the event, and asks for no more than its vector has. */
  predicate Asks(s: State, e: Event) {
    match e
    case CallWrite(_) => s.writer.WriterIdle?
    case StepWriter => s.writer.Writing?
    case TakeWriteVector => s.writer.WriterIdle?
    case Store(i, _) => s.writer.Filling? && i < Total(s.writer.space)
    case AdvanceWriter(n) => s.writer.Filling? && n <= Total(s.writer.space)
    case CallRead(_, _) => s.reader.ReaderIdle?
    case StepReader => s.reader.Reading?
    case TakeReadVector => s.reader.ReaderIdle?
    case Load(i) => s.reader.Looking? && i < Total(s.reader.data)
    case AdvanceReader(n) => s.reader.Looking? && n <= Total(s.reader.data)
  }

  /** Between the states, only the writer thread has moved, and it holds no vector. */
  predicate OnlyWriter(s: State, t: State) {
    && !t.writer.Filling?
    && t.g == s.g && t.rp == s.rp && t.consumed == s.consumed && t.reader == s.reader && t.written >= s.written
  }

  lemma WriterCallMoves(s: State, e: Event)
    requires Enabled(s, e) && (e.CallWrite? || e.StepWriter?)
    ensures OnlyWriter(s, Next(s, e))
  {
  }

  /** A call of the writer thread leaves the reader's vector as it is. */
  lemma WriterCallKeeps(s: State, t: State)
    requires VectorInv(s) && OnlyWriter(s, t) && BufferInv(t)
    ensures VectorInv(t)
  {
  }

  predicate OnlyReader(s: State, t: State) {
    && !t.reader.Looking?
    && t.g == s.g && t.buf == s.buf && t.wp == s.wp && t.written == s.written && t.writer == s.writer
    && t.consumed >= s.consumed
  }

  lemma ReaderCallMoves(s: State, e: Event)
    requires Enabled(s, e) && (e.CallRead? || e.StepReader?)
    ensures OnlyReader(s, Next(s, e))
  {
  }

  /** A call of the reader thread leaves the writer's vector as it is. */
  lemma ReaderCallKeeps(s: State, t: State)
    requires VectorInv(s) && OnlyReader(s, t) && t.written - t.consumed >= 0
    ensures VectorInv(t)
  {
  }

  lemma WriterCallInv(s: State, e: Event)
    requires Inv(s) && Asks(s, e) && (e.CallWrite? || e.StepWriter?)
    ensures Enabled(s, e) && Inv(Next(s, e))
  {
    if e.CallWrite? {
      BeginWriteCore(s, e.src);
    } else if WriterCopying(s.writer) {
      WriterCopies(s);
    } else {
      WriterPublishes(s);
    }
    WriterCallMoves(s, e);
    WriterCallKeeps(s, Next(s, e));
  }

  lemma ReaderCallCore(s: State, e: Event)
    requires Core(s) && Asks(s, e) && (e.CallRead? || e.StepReader?)
    ensures Enabled(s, e) && Core(Next(s, e))
  {
    if e.CallRead? {
      BeginReadCore(s, e.cnt, e.peek);
    } else if ReaderCopying(s.reader) {
      ReaderCopies(s);
    } else {
      ReaderPublishes(s);
    }
  }

  lemma ReaderCallInv(s: State, e: Event)
    requires Inv(s) && Asks(s, e) && (e.CallRead? || e.StepReader?)
    ensures Enabled(s, e) && Inv(Next(s, e))
  {
    ReaderCallCore(s, e);
    ReaderCallMoves(s, e);
    ReaderCallKeeps(s, Next(s, e));
  }

  /** Every step of either thread keeps the invariant, and no started call can get stuck. */
  lemma NextInv(s: State, e: Event)
    requires Inv(s) && Asks(s, e)
    ensures Enabled(s, e) && Inv(Next(s, e))
  {
    match e
    case TakeWriteVector => BeginFillInv(s);
    case Store(i, x) => StoreInv(s, i, x);
    case AdvanceWriter(n) => EndFillInv(s, n);
    case TakeReadVector => BeginLookInv(s);
    case Load(i) => LoadInv(s, i);
    case AdvanceReader(n) => EndLookInv(s, n);
    case CallWrite(_) => WriterCallInv(s, e);
    case StepWriter => WriterCallInv(s, e);
    case CallRead(_, _) => ReaderCallInv(s, e);
    case StepReader => ReaderCallInv(s, e);
  }

  lemma {:induction false} RunsInv(s: State, schedule: seq<Event>, t: State)
    requires Inv(s) && Runs(s, schedule, t)
    ensures Inv(t)
    decreases |schedule|
  {
    if |schedule| != 0 {
      NextInv(s, schedule[0]);
      RunsInv(Next(s, schedule[0]), schedule[1..], t);
    }
  }

  lemma MovesMod(s: State, n: nat)
    requires Core(s) && s.rp == s.consumed % s.g.size && n <= s.g.size
    ensures Advance(s.g, s.rp, n) == (s.consumed + n) % s.g.size
  {
    AdvanceWraps(s.g, s.rp, n);
    ModStep(s.consumed, n, s.g.size);
  }

  lemma ReadMovesBoth(s: State)
    requires Core(s) && ReaderCanStep(s) && !ReaderCopying(s.reader) && !s.reader.peek
    ensures var n := StageSize(s.reader.second, s.reader.n1, s.reader.n2);
            && ReaderStep(s).rp == Advance(s.g, s.rp, n) && ReaderStep(s).consumed == s.consumed + n
            && ReaderStep(s).g == s.g && n <= s.g.size
  {
    assert s.reader.base == s.rp;
  }

  lemma OthersKeepReadPointer(s: State, e: Event)
    requires Enabled(s, e) && !e.AdvanceReader? && (e.StepReader? ==> ReaderCopying(s.reader) || s.reader.peek)
    ensures Next(s, e).rp == s.rp && Next(s, e).consumed == s.consumed && Next(s, e).g == s.g
  {
  }

  /** The read pointer is the consumed total modulo the size, step by step. */
  lemma NextMod(s: State, e: Event)
    requires Inv(s) && Enabled(s, e) && s.rp == s.consumed % s.g.size
    ensures Next(s, e).rp == Next(s, e).consumed % s.g.size
  {
    if e.StepReader? && !ReaderCopying(s.reader) && !s.reader.peek {
      ReadMovesBoth(s);
      MovesMod(s, StageSize(s.reader.second, s.reader.n1, s.reader.n2));
    } else if e.AdvanceReader? {
      MovesMod(s, e.n);
    } else {
      OthersKeepReadPointer(s, e);
    }
  }

  lemma {:induction false} RunsMod(s: State, schedule: seq<Event>, t: State)
    requires Inv(s) && s.rp == s.consumed % s.g.size && Runs(s, schedule, t)
    ensures t.g == s.g && t.rp == t.consumed % t.g.size
    decreases |schedule|
  {
    if |schedule| != 0 {
      NextInv(s, schedule[0]);
      NextMod(s, schedule[0]);
      RunsMod(Next(s, schedule[0]), schedule[1..], t);
    }
  }

  // What the invariant means for the two threads

  /** The write call in progress has yet to store to buffer index x, or the write vector in use has it. */
  predicate WillStore(s: State, x: int) {
    var w := s.writer;
    match w
    case WriterIdle => false
    case Writing(_, n1, n2, second, k) =>
      var start := s.wp - StageStart(second, n1);
      (start + k <= x < start + StageEnd(second, n1, n2)) || (!second && 0 <= x < n2)
    case Filling(space, _) => x >= 0 && InRegions(x, space)
  }

  /** The read or peek in progress has yet to load from buffer index x, or the read vector in use has it. */
  predicate WillLoad(s: State, x: int) {
    var r := s.reader;
    match r
    case ReaderIdle => false
    case Reading(_, n1, n2, second, base, dest) =>
      var start := base - StageStart(second, n1);
      (start + |dest| <= x < start + StageEnd(second, n1, n2)) || (!second && 0 <= x < n2)
    case Looking(data) => x >= 0 && InRegions(x, data)
  }

  ghost predicate Safe(s: State) {
    && Valid(s.g)
    // first in, first out, nothing lost, nothing invented
    && s.received <= s.accepted
    && (!s.writer.Writing? && !s.reader.Reading? ==>
        |s.accepted| - |s.received| == ReadSpace(s.g, s.wp, s.rp))
    && (forall p :: p in s.peeks ==> At(p.bytes, s.accepted, p.position))
    // the pointers mirror the totals and one slot stays free
    && s.consumed <= s.written <= s.consumed + s.g.size - 1
    && s.wp == s.written % s.g.size && s.rp == s.consumed % s.g.size
    // the threads never touch the same slot, and never claim more than there is by now
    && (forall x :: !(WillStore(s, x) && WillLoad(s, x)))
    && Unpublished(s.writer) <= WriteSpace(s.g, s.wp, s.rp)
    && Unconsumed(s.reader) <= ReadSpace(s.g, s.wp, s.rp)
    && (s.writer.Filling? ==> Total(s.writer.space) <= WriteSpace(s.g, s.wp, s.rp))
    && (s.reader.Looking? ==> Total(s.reader.data) <= ReadSpace(s.g, s.wp, s.rp))
  }

  /** Slots to be filled lie past everything published; slots being read hold published bytes. */
  lemma SlotsApart(s: State, x: int)
    requires Inv(s)
    ensures var ahead := if x >= s.rp then x - s.rp else x - s.rp + s.g.size;
            && (WillStore(s, x) ==> s.written - s.consumed <= ahead)
            && (WillLoad(s, x) ==> ahead < s.written - s.consumed)
  {
  }

  /** The safety claim of the source, for one reader and one writer, over every schedule. */
  lemma EveryInterleavingIsSafe(g: Geometry, buf: seq<byte>, schedule: seq<Event>, t: State)
    requires Valid(g) && |buf| == g.size && Runs(Init(g, buf), schedule, t)
    ensures Safe(t)
  {
    InitInv(g, buf);
    ModUnique(0, 0, g.size, 0);
    RunsInv(Init(g, buf), schedule, t);
    RunsMod(Init(g, buf), schedule, t);
    DistanceIsCount(t);
    ModStep(t.consumed, t.written - t.consumed, t.g.size);
    forall x ensures !(WillStore(t, x) && WillLoad(t, x)) {
      SlotsApart(t, x);
    }
  }

  /** A write call accepts the longest prefix of its data that fits the space seen at its start. */
  lemma WriteCallAccepts(s: State, src: seq<byte>)
    requires Inv(s) && s.writer.WriterIdle?
    ensures var n := Min(|src|, s.g.size - 1 - (s.written - s.consumed));
            && BeginWrite(s, src).accepted == s.accepted + src[..n]
            && Unpublished(BeginWrite(s, src).writer) == n
  {
    var n1, n2 := WriteSplits(s, src);
  }

  /** A read or peek call takes on as many bytes as it asked for, or all that are published. */
  lemma ReadCallTakes(s: State, cnt: nat, peek: bool)
    requires Inv(s) && s.reader.ReaderIdle?
    ensures Unconsumed(BeginRead(s, cnt, peek).reader) == Min(cnt, s.written - s.consumed)
  {
    DistanceIsCount(s);
    SplitCovers(s.g, s.rp, Min(cnt, s.written - s.consumed));
  }

  /** What is published by an advance is what was stored through the vector, byte by byte. */
  lemma AdvancePublishesStores(s: State, n: nat, i: nat)
    requires Inv(s) && Asks(s, AdvanceWriter(n)) && i < n && i in s.writer.stored
    ensures Enabled(s, AdvanceWriter(n))
    ensures var accepted := Next(s, AdvanceWriter(n)).accepted;
            s.accepted <= accepted && |accepted| == |s.accepted| + n && accepted[|s.accepted| + i] == s.writer.stored[i]
  {
    EndFillInv(s, n);
  }

  /** What an advance of the reader releases is the next part of the stream. */
  lemma AdvanceReleasesStream(s: State, n: nat)
    requires Inv(s) && Asks(s, AdvanceReader(n))
    ensures Enabled(s, AdvanceReader(n)) && s.consumed + n <= |s.accepted|
    ensures Next(s, AdvanceReader(n)).received == s.received + s.accepted[s.consumed..s.consumed + n]
  {
    VectorIsStream(s, n);
  }

  // Wait freedom

  /** Steps of its own that a thread needs to return from the call it is in. */
  function WriterStepsLeft(w: Writer): int {
    if !w.Writing? then 0
    else StageEnd(w.second, w.n1, w.n2) - w.k + 1 + (if !w.second && w.n2 > 0 then w.n2 + 1 else 0)
  }

  function ReaderStepsLeft(r: Reader): int {
    if !r.Reading? then 0
    else StageEnd(r.second, r.n1, r.n2) - |r.dest| + 1 + (if !r.second && r.n2 > 0 then r.n2 + 1 else 0)
  }

  function Count(schedule: seq<Event>, e: Event): nat {
    multiset(schedule)[e]
  }

  lemma CountStep(schedule: seq<Event>, e: Event)
    requires |schedule| != 0
    ensures Count(schedule, e) == (if schedule[0] == e then 1 else 0) + Count(schedule[1..], e)
  {
    assert schedule == [schedule[0]] + schedule[1..];
  }

  lemma WriterStepCounts(s: State, e: Event)
    requires Inv(s) && Enabled(s, e) && !e.CallWrite?
    ensures WriterStepsLeft(Next(s, e).writer) == WriterStepsLeft(s.writer) - (if e == StepWriter then 1 else 0)
  {
  }

  lemma ReaderStepCounts(s: State, e: Event)
    requires Inv(s) && Enabled(s, e) && !e.CallRead?
    ensures ReaderStepsLeft(Next(s, e).reader) == ReaderStepsLeft(s.reader) - (if e == StepReader then 1 else 0)
  {
  }

  /**
   Whatever the reader does meanwhile, a write call returns after exactly the
   writer's own number of remaining steps: at most its byte count plus two.
   */
  lemma {:induction false} WriterIsWaitFree(s: State, schedule: seq<Event>, t: State)
    requires Inv(s) && Runs(s, schedule, t)
    requires forall e :: e in schedule ==> !e.CallWrite?
    ensures WriterStepsLeft(t.writer) == WriterStepsLeft(s.writer) - Count(schedule, StepWriter)
    ensures !t.writer.Writing? <==> Count(schedule, StepWriter) == WriterStepsLeft(s.writer)
    ensures 0 <= WriterStepsLeft(s.writer) <= Unpublished(s.writer) + 2
    decreases |schedule|
  {
    if |schedule| != 0 {
      CountStep(schedule, StepWriter);
      NextInv(s, schedule[0]);
      assert schedule[0] in schedule;
      WriterStepCounts(s, schedule[0]);
      WriterIsWaitFree(Next(s, schedule[0]), schedule[1..], t);
    }
  }

  lemma {:induction false} ReaderIsWaitFree(s: State, schedule: seq<Event>, t: State)
    requires Inv(s) && Runs(s, schedule, t)
    requires forall e :: e in schedule ==> !e.CallRead?
    ensures ReaderStepsLeft(t.reader) == ReaderStepsLeft(s.reader) - Count(schedule, StepReader)
    ensures !t.reader.Reading? <==> Count(schedule, StepReader) == ReaderStepsLeft(s.reader)
    ensures 0 <= ReaderStepsLeft(s.reader) <= Unconsumed(s.reader) + 2
    decreases |schedule|
  {
    if |schedule| != 0 {
      CountStep(schedule, StepReader);
      NextInv(s, schedule[0]);
      assert schedule[0] in schedule;
      ReaderStepCounts(s, schedule[0]);
      ReaderIsWaitFree(Next(s, schedule[0]), schedule[1..], t);
    }
  }
}
