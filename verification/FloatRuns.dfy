/**
 Whole runs of float calls mixed with byte calls that move whole floats: the buffer stays
 aligned, and callers see exactly the floats that a buffer of float cells would show.
 */
module FloatRuns {
  import opened MachineInt
  import opened Cyclic
  import opened ByteQueue
  import opened RingBuffer
  import opened FloatQueue
  import R = RbRuns

  type Float = seq<byte>

  datatype Call =
    | OneRead
    | OnePeek
    | OnePeekAt(offset: nat)
    | OneSkip
    | OneWrite(x: Float)
    | Bytes(call: R.Call)
  {
    /** The caller moves whole floats, and peeks at float offsets. */
    predicate Whole() {
      match this
      case OnePeekAt(offset) => offset % FLOAT == 0 && offset < TWO_TO_64
      case OneWrite(x) => |x| == FLOAT
      case Bytes(c) => WholeBytes(c)
      case _ => true
    }
  }

  predicate WholeBytes(c: R.Call) {
    match c
    case Write(data) => |data| % FLOAT == 0
    case Read(count) => count % FLOAT == 0
    case OverRead(count) => count % FLOAT == 0
    case Peek(count) => count % FLOAT == 0
    case PeekAt(_, _) => false
    case PeekByteAt(_) => false
    case Skip(count) => count % FLOAT == 0
    case OverSkip(count) => count % FLOAT == 0
    case AdvanceWrite(count) => count % FLOAT == 0
    case _ => true
  }

  predicate AllWhole(calls: seq<Call>) {
    forall i :: 0 <= i < |calls| ==> calls[i].Whole()
  }

  // The buffer of bytes

  /** A float call is the byte call for four bytes where that would be served in full, and otherwise nothing. */
  function AsBytes(v: View, c: Call): R.Call
  {
    match c
    case OneRead => R.Read(if FLOAT <= v.n then FLOAT else 0)
    case OnePeek => R.Peek(if FLOAT <= v.n then FLOAT else 0)
    case OnePeekAt(_) => R.Peek(0)
    case OneSkip => R.Skip(if FLOAT <= v.n then FLOAT else 0)
    case OneWrite(x) => R.Write(if |x| <= v.Size() - v.n then x else [])
    case Bytes(call) => call
  }

  function After(v: View, c: Call): View
    requires v.r < v.Size() && v.n <= v.Size()
  {
    R.After(v, AsBytes(v, c))
  }

  function SeenOf(v: View, c: Call): Seen
    requires v.n <= v.Size()
  {
    if c.OnePeekAt? then Seen.Bytes(if c.offset + FLOAT <= v.n then v.Queue()[c.offset..c.offset + FLOAT] else [])
    else R.SeenOf(v, AsBytes(v, c))
  }

  method PerformReadFloat(rb: Rb) returns (seen: Seen)
    requires rb.Valid()
    modifies rb
    ensures rb.Valid() && rb.Abs() == After(old(rb.Abs()), Call.OneRead) && seen == SeenOf(old(rb.Abs()), Call.OneRead)
  {
    var destination := new byte[FLOAT];
    ghost var view := rb.Abs();
    var n := FloatQueue.ReadFloat(rb, destination);
    seen := Seen.Bytes(destination[..n]);
    assert destination[..n] == view.Queue()[..n];
  }

  method PerformPeekFloat(rb: Rb, offset: nat) returns (seen: Seen)
    requires rb.Valid() && Aligned(rb.Abs()) && offset % FLOAT == 0 && offset < TWO_TO_64
    modifies rb`stats
    ensures rb.Valid() && rb.Abs() == old(rb.Abs()) && seen == SeenOf(rb.Abs(), Call.OnePeekAt(offset))
    ensures offset == 0 ==> seen == SeenOf(rb.Abs(), Call.OnePeek)
  {
    var destination := new byte[FLOAT];
    AlignedFloatsNeverSplit(rb.Abs(), offset);
    if offset == 0 {
      var n := FloatQueue.PeekFloat(rb, destination);
      seen := Seen.Bytes(destination[..n]);
      assert destination[..n] == rb.Queue()[..n];
    } else {
      var n := FloatQueue.PeekFloatAt(rb, destination, offset);
      seen := Seen.Bytes(destination[..n.value]);
    }
  }

  method PerformSkipFloat(rb: Rb) returns (seen: Seen)
    requires rb.Valid()
    modifies rb
    ensures rb.Valid() && rb.Abs() == After(old(rb.Abs()), Call.OneSkip) && seen == SeenOf(old(rb.Abs()), Call.OneSkip)
  {
    var n := FloatQueue.SkipFloat(rb);
    seen := Seen.Count(n);
  }

  lemma WholeFloat(v: View, x: Float)
    requires v.Ok() && |x| == FLOAT && v.Put([]) == v
    ensures After(v, Call.OneWrite(x)) == if FLOAT <= v.Size() - v.n then v.Put(x) else v
    ensures SeenOf(v, Call.OneWrite(x)) == Seen.Count(if FLOAT <= v.Size() - v.n then FLOAT else 0)
  {
    assert x[..FLOAT] == x;
  }

  method PerformWriteFloat(rb: Rb, x: Float) returns (seen: Seen)
    requires rb.Valid() && |x| == FLOAT
    modifies rb, rb.buf
    ensures rb.Valid() && rb.Abs() == After(old(rb.Abs()), Call.OneWrite(x))
            && seen == SeenOf(old(rb.Abs()), Call.OneWrite(x))
  {
    ghost var v := rb.Abs();
    NoBytesNoChange(v);
    WholeFloat(v, x);
    var n := FloatQueue.WriteFloat(rb, x);
    seen := Seen.Count(n);
  }

  /** One call on an rb.h buffer. */
  method Perform(rb: Rb, c: Call) returns (seen: Seen)
    requires rb.Valid() && Aligned(rb.Abs()) && c.Whole()
    modifies rb, rb.buf
    ensures rb.Valid() && rb.Abs() == After(old(rb.Abs()), c) && seen == SeenOf(old(rb.Abs()), c)
  {
    match c {
      case OneRead =>
        seen := PerformReadFloat(rb);
      case OnePeek =>
        seen := PerformPeekFloat(rb, 0);
      case OnePeekAt(offset) =>
        seen := PerformPeekFloat(rb, offset);
      case OneSkip =>
        seen := PerformSkipFloat(rb);
      case OneWrite(x) =>
        seen := PerformWriteFloat(rb, x);
      case Bytes(call) =>
        seen := R.Perform(rb, call);
    }
  }

  function AfterAll(v: View, calls: seq<Call>): View
    requires v.r < v.Size() && v.n <= v.Size()
    decreases |calls|
  {
    if |calls| == 0 then v else AfterAll(After(v, calls[0]), calls[1..])
  }

  function Trace(v: View, calls: seq<Call>): (t: seq<Seen>)
    requires v.r < v.Size() && v.n <= v.Size()
    ensures |t| == |calls|
    decreases |calls|
  {
    if |calls| == 0 then [] else [SeenOf(v, calls[0])] + Trace(After(v, calls[0]), calls[1..])
  }

  lemma CallKeepsAlignment(v: View, c: Call)
    requires v.Ok() && Aligned(v) && c.Whole()
    ensures After(v, c).Ok() && Aligned(After(v, c)) && After(v, c).Size() == v.Size()
  {
    var b := AsBytes(v, c);
    var k := R.Moves(v, b);
    MovesWhole(v, b);
    match b
    case Write(data) => TransfersKeepAlignment(v, 0, data);
    case AdvanceWrite(_) => MultiplesAdd(v.n, k);
    case Read(_) => TakeStaysWhole(v, k);
    case OverRead(_) => TakeStaysWhole(v, k);
    case Skip(_) => TakeStaysWhole(v, k);
    case OverSkip(_) => TakeStaysWhole(v, k);
    case Drop => TakeStaysWhole(v, k);
    case _ =>
  }

  lemma TakeStaysWhole(v: View, k: nat)
    requires v.Ok() && Aligned(v) && k % FLOAT == 0 && k <= v.Size()
    ensures v.Take(k).Ok() && Aligned(v.Take(k)) && v.Take(k).Size() == v.Size()
  {
    TakeKeepsAlignment(v, k);
  }

  /** Requests for whole floats are cut short to whole floats. */
  lemma MovesWhole(v: View, b: R.Call)
    requires v.Ok() && Aligned(v) && WholeBytes(b)
    ensures R.Moves(v, b) % FLOAT == 0
  {
    MultiplesAdd(v.Size(), v.n);
  }

  lemma EndIsAligned(v: View)
    requires v.Ok() && Aligned(v)
    ensures Around(v.r + v.n, v.Size()) % FLOAT == 0
  {
    MultiplesAdd(v.r, v.n);
    MultiplesAdd(v.r + v.n, v.Size());
  }

  /** The aligned views of a buffer of the given size. */
  ghost function WholeViews(size: nat): iset<View> {
    iset v: View | v.Ok() && Aligned(v) && v.Size() == size
  }

  lemma {:induction false} RunStaysWhole(v: View, calls: seq<Call>, size: nat)
    requires v in WholeViews(size) && AllWhole(calls)
    ensures AfterAll(v, calls) in WholeViews(size)
    decreases |calls|
  {
    if |calls| > 0 {
      CallKeepsAlignment(v, calls[0]);
      RunStaysWhole(After(v, calls[0]), calls[1..], size);
    }
  }

  /** Every run of such calls keeps both indices and the fill on float boundaries. */
  lemma RunKeepsAlignment(v: View, calls: seq<Call>)
    requires v.Ok() && Aligned(v) && AllWhole(calls)
    ensures AfterAll(v, calls).Ok() && Aligned(AfterAll(v, calls)) && AfterAll(v, calls).Size() == v.Size()
    ensures Around(AfterAll(v, calls).r + AfterAll(v, calls).n, v.Size()) % FLOAT == 0
  {
    RunStaysWhole(v, calls, v.Size());
    EndIsAligned(AfterAll(v, calls));
  }

  // The buffer of float cells

  /** Start cell, number of readable floats, and all cells read cyclically from the start. */
  datatype Cells = Cells(r: nat, n: nat, ring: seq<Float>) {
    predicate Ok() {
      r < |ring| && n <= |ring|
    }

    function Put(x: seq<Float>): Cells
      requires n + |x| <= |ring|
    {
      Cells(r, n + |x|, Patch(ring, n, x))
    }

    function Take(k: nat): Cells
      requires Ok() && k <= |ring|
    {
      Cells(Around(r + k, |ring|), if k <= n then n - k else 0, ring[k..] + ring[..k])
    }
  }

  /** What a caller sees, in floats. */
  datatype Shown = Count(n: nat) | Row(floats: seq<Float>) | Space(canRead: nat, canWrite: nat) | Nothing

  /** How many floats a call moves. */
  function CellMoves(f: Cells, c: Call): nat
    requires f.Ok()
  {
    match c
    case OneRead => Min(1, f.n)
    case OneSkip => Min(1, f.n)
    case OneWrite(_) => Min(1, |f.ring| - f.n)
    case Bytes(Write(data)) => Min(|data| / FLOAT, |f.ring| - f.n)
    case Bytes(AdvanceWrite(count)) => Min(count / FLOAT, |f.ring| - f.n)
    case Bytes(Read(count)) => Min(count / FLOAT, f.n)
    case Bytes(Skip(count)) => Min(count / FLOAT, f.n)
    case Bytes(OverRead(count)) => Min(count / FLOAT, |f.ring|)
    case Bytes(OverSkip(count)) => Min(count / FLOAT, |f.ring|)
    case Bytes(Drop) => f.n
    case _ => 0
  }

  function CellsAfter(f: Cells, c: Call): Cells
    requires f.Ok() && c.Whole()
  {
    var k := CellMoves(f, c);
    match c
    case OneWrite(x) => f.Put([x][..k])
    case Bytes(Write(data)) => f.Put(Floats(data)[..k])
    case Bytes(AdvanceWrite(_)) => f.(n := f.n + k)
    case Bytes(Reset) => Cells(0, 0, Window(f.ring, Around(|f.ring| - f.r, |f.ring|)))
    case OnePeek => f
    case OnePeekAt(_) => f
    case Bytes(Peek(_)) => f
    case Bytes(Spaces) => f
    case Bytes(ResetStats) => f
    case _ => f.Take(k)
  }

  function ShownOf(f: Cells, c: Call): Shown
    requires f.Ok() && c.Whole()
  {
    var k := CellMoves(f, c);
    match c
    case OneRead => Row(f.ring[..k])
    case OnePeek => Row(f.ring[..Min(1, f.n)])
    case OnePeekAt(offset) => Row(if offset / FLOAT < f.n then [f.ring[offset / FLOAT]] else [])
    case Bytes(Read(_)) => Row(f.ring[..k])
    case Bytes(OverRead(_)) => Row(f.ring[..k])
    case Bytes(Peek(count)) => Row(f.ring[..Min(count / FLOAT, f.n)])
    case Bytes(Spaces) => Shown.Space(f.n, |f.ring| - f.n)
    case Bytes(Reset) => Shown.Nothing
    case Bytes(ResetStats) => Shown.Nothing
    case _ => Shown.Count(k)
  }

  function CellsAfterAll(f: Cells, calls: seq<Call>): Cells
    requires f.Ok() && AllWhole(calls)
    decreases |calls|
  {
    if |calls| == 0 then f else CellsAfterAll(CellsAfter(f, calls[0]), calls[1..])
  }

  function ShownAll(f: Cells, calls: seq<Call>): (t: seq<Shown>)
    requires f.Ok() && AllWhole(calls)
    decreases |calls|
  {
    if |calls| == 0 then [] else [ShownOf(f, calls[0])] + ShownAll(CellsAfter(f, calls[0]), calls[1..])
  }

  // One is the other

  function CellsOf(v: View): Cells {
    Cells(v.r / FLOAT, v.n / FLOAT, Floats(v.ring))
  }

  function InFloats(seen: Seen): Shown {
    match seen
    case Count(n) => Shown.Count(n / FLOAT)
    case Bytes(bytes) => Row(Floats(bytes))
    case Space(r, w) => Shown.Space(r / FLOAT, w / FLOAT)
    case Copied(_, bytes) => Row(Floats(bytes))
    case _ => Shown.Nothing
  }

  function AllInFloats(t: seq<Seen>): (s: seq<Shown>)
    ensures |s| == |t| && forall i :: 0 <= i < |t| ==> s[i] == InFloats(t[i])
  {
    seq(|t|, i requires 0 <= i < |t| => InFloats(t[i]))
  }

  /** A prefix and the rest of whole floats. */
  lemma FloatsSplit(q: seq<byte>, k: nat)
    requires |q| % FLOAT == 0 && k % FLOAT == 0 && k <= |q|
    ensures Floats(q[..k]) == Floats(q)[..k / FLOAT]
    ensures Floats(q[k..]) == Floats(q)[k / FLOAT..]
  {
    MultiplesAdd(|q|, k);
    FloatsAppend(q[..k], q[k..]);
    assert q == q[..k] + q[k..];
  }

  lemma PutCells(v: View, data: seq<byte>)
    requires v.Ok() && Aligned(v) && |data| % FLOAT == 0 && v.n + |data| <= v.Size()
    ensures CellsOf(v.Put(data)) == CellsOf(v).Put(Floats(data))
  {
    var end := v.n + |data|;
    MultiplesAdd(v.n, |data|);
    MultiplesAdd(v.Size(), end);
    FloatsSplit(v.ring, v.n);
    FloatsSplit(v.ring, end);
    FloatsAppend(v.ring[..v.n], data);
    FloatsAppend(v.ring[..v.n] + data, v.ring[end..]);
  }

  lemma TakeCells(v: View, k: nat)
    requires v.Ok() && Aligned(v) && k % FLOAT == 0 && k <= v.Size()
    ensures CellsOf(v).Ok() && CellsOf(v.Take(k)) == CellsOf(v).Take(k / FLOAT)
    ensures Floats(v.ring[..k]) == CellsOf(v).ring[..k / FLOAT]
  {
    MultiplesAdd(v.Size(), k);
    FloatsSplit(v.ring, k);
    FloatsAppend(v.ring[k..], v.ring[..k]);
  }

  lemma RestartCells(v: View)
    requires v.Ok() && Aligned(v)
    ensures CellsOf(v).Ok()
    ensures CellsOf(v.Restart())
            == Cells(0, 0, Window(CellsOf(v).ring, Around(|CellsOf(v).ring| - CellsOf(v).r, |CellsOf(v).ring|)))
  {
    var k := Around(v.Size() - v.r, v.Size());
    MultiplesAdd(v.Size(), v.r);
    MultiplesAdd(v.Size(), k);
    FloatsSplit(v.ring, k);
    FloatsAppend(v.ring[k..], v.ring[..k]);
  }

  lemma PeekCells(v: View, k: nat)
    requires v.Ok() && Aligned(v) && k % FLOAT == 0 && k <= v.n
    ensures CellsOf(v).Ok() && Floats(v.Queue()[..k]) == CellsOf(v).ring[..k / FLOAT]
  {
    FloatsSplit(v.ring, k);
    assert v.Queue()[..k] == v.ring[..k];
  }

  lemma SliceOfPrefix(s: seq<byte>, n: nat, from: nat, to: nat)
    requires from <= to <= n <= |s|
    ensures s[..n][from..to] == s[from..to]
  {
  }

  lemma PeekAtCells(v: View, offset: nat)
    requires v.Ok() && Aligned(v) && offset % FLOAT == 0
    ensures CellsOf(v).Ok()
    ensures InFloats(SeenOf(v, OnePeekAt(offset))) ==
            Row(if offset / FLOAT < v.n / FLOAT then [CellsOf(v).ring[offset / FLOAT]] else [])
  {
    if offset + FLOAT <= v.n {
      OneFloat(v.Queue()[offset..offset + FLOAT]);
      AlignedFloatsNeverSplit(v, offset);
      SliceOfPrefix(v.ring, v.n, offset, offset + FLOAT);
      assert FLOAT * (offset / FLOAT) == offset;
    }
  }

  lemma MovesAreCellMoves(v: View, c: Call)
    requires v.Ok() && Aligned(v) && c.Whole()
    ensures CellsOf(v).Ok() && R.Moves(v, AsBytes(v, c)) == FLOAT * CellMoves(CellsOf(v), c)
  {
    MovesWhole(v, AsBytes(v, c));
    MultiplesAdd(v.Size(), v.n);
  }

  predicate Takes(c: Call) {
    c.OneRead? || c.OneSkip?
        || (c.Bytes? && (c.call.Read? || c.call.OverRead? || c.call.Skip? || c.call.OverSkip? || c.call.Drop?))
  }

  predicate Puts(c: Call) {
    c.OneWrite? || (c.Bytes? && (c.call.Write? || c.call.AdvanceWrite?))
  }

  /** The call has the same effect and shows the same on the bytes and on the cells. */
  predicate Same(v: View, c: Call)
    requires v.Ok() && Aligned(v) && c.Whole()
  {
    CellsOf(v).Ok() && CellsOf(After(v, c)) == CellsAfter(CellsOf(v), c)
        && InFloats(SeenOf(v, c)) == ShownOf(CellsOf(v), c)
  }

  lemma TakesAreSame(v: View, c: Call)
    requires v.Ok() && Aligned(v) && c.Whole() && Takes(c)
    ensures Same(v, c)
  {
    var k := R.Moves(v, AsBytes(v, c));
    MovesAreCellMoves(v, c);
    TakeCells(v, k);
    TakesTake(v, c, k);
    TakesShow(v, c, k);
  }

  lemma TakesTake(v: View, c: Call, k: nat)
    requires v.Ok() && CellsOf(v).Ok() && c.Whole() && Takes(c)
    requires k == R.Moves(v, AsBytes(v, c)) == FLOAT * CellMoves(CellsOf(v), c)
    ensures After(v, c) == v.Take(k) && CellsAfter(CellsOf(v), c) == CellsOf(v).Take(k / FLOAT)
  {
  }

  lemma TakesShow(v: View, c: Call, k: nat)
    requires v.Ok() && CellsOf(v).Ok() && c.Whole() && Takes(c)
    requires k == R.Moves(v, AsBytes(v, c)) == FLOAT * CellMoves(CellsOf(v), c)
    requires k <= v.Size() && Floats(v.ring[..k]) == CellsOf(v).ring[..k / FLOAT]
    ensures InFloats(SeenOf(v, c)) == ShownOf(CellsOf(v), c)
  {
  }

  lemma PutsAreSame(v: View, c: Call)
    requires v.Ok() && Aligned(v) && c.Whole() && Puts(c)
    ensures Same(v, c)
  {
    MovesAreCellMoves(v, c);
    var b := AsBytes(v, c);
    var k := R.Moves(v, b);
    if c.OneWrite? {
      OneFloat(c.x);
      PutCells(v, b.data[..k]);
      assert b.data[..k] == if k == 0 then [] else c.x;
      assert [c.x][..0] == [] && [c.x][..1] == [c.x];
    } else if c.call.Write? {
      FloatsSplit(c.call.data, k);
      PutCells(v, c.call.data[..k]);
    }
  }

  lemma OthersAreSame(v: View, c: Call)
    requires v.Ok() && Aligned(v) && c.Whole() && !Takes(c) && !Puts(c)
    ensures Same(v, c)
  {
    match c
    case OnePeek => PeekCells(v, if FLOAT <= v.n then FLOAT else 0);
    case OnePeekAt(offset) =>
      PeekAtCells(v, offset);
      MultiplesAdd(v.Size(), v.n);
    case Bytes(Peek(count)) => PeekCells(v, Min(count, v.n));
    case Bytes(Spaces) => MultiplesAdd(v.Size(), v.n);
    case Bytes(Reset) => RestartCells(v);
    case Bytes(ResetStats) =>
  }

  lemma CallsAreSame(v: View, c: Call)
    requires v.Ok() && Aligned(v) && c.Whole()
    ensures Same(v, c)
  {
    if Takes(c) {
      TakesAreSame(v, c);
    } else if Puts(c) {
      PutsAreSame(v, c);
    } else {
      OthersAreSame(v, c);
    }
  }

  /** Every run shows callers the floats of the buffer of cells, and leaves those cells. */
  lemma {:induction false} RunIsFloatRun(v: View, calls: seq<Call>)
    requires v.Ok() && Aligned(v) && AllWhole(calls)
    ensures CellsOf(v).Ok() && AfterAll(v, calls).Ok()
    ensures CellsOf(AfterAll(v, calls)) == CellsAfterAll(CellsOf(v), calls)
    ensures AllInFloats(Trace(v, calls)) == ShownAll(CellsOf(v), calls)
    decreases |calls|
  {
    if |calls| == 0 {
      MovesAreCellMoves(v, Call.OneRead);
    } else {
      CallsAreSame(v, calls[0]);
      CallKeepsAlignment(v, calls[0]);
      RunIsFloatRun(After(v, calls[0]), calls[1..]);
      FirstInFloats(SeenOf(v, calls[0]), Trace(After(v, calls[0]), calls[1..]));
    }
  }

  lemma FirstInFloats(first: Seen, rest: seq<Seen>)
    ensures AllInFloats([first] + rest) == [InFloats(first)] + AllInFloats(rest)
  {
  }

  /** Such a run on an rb.h buffer. */
  method PerformAll(rb: Rb, calls: seq<Call>) returns (seen: seq<Seen>)
    requires rb.Valid() && Aligned(rb.Abs()) && AllWhole(calls)
    modifies rb, rb.buf
    ensures rb.Valid() && rb.readIndex % FLOAT == 0 && rb.writeIndex % FLOAT == 0
    ensures rb.Abs() == AfterAll(old(rb.Abs()), calls) && seen == Trace(old(rb.Abs()), calls)
    ensures CellsOf(old(rb.Abs())).Ok() && AllInFloats(seen) == ShownAll(CellsOf(old(rb.Abs())), calls)
    ensures CellsOf(rb.Abs()) == CellsAfterAll(CellsOf(old(rb.Abs())), calls)
  {
    ghost var v := rb.Abs();
    RunKeepsAlignment(v, calls);
    RunIsFloatRun(v, calls);
    seen := PerformEach(rb, calls);
    IndicesAligned(rb);
  }

  lemma IndicesAligned(rb: Rb)
    requires rb.Valid() && Aligned(rb.Abs())
    ensures rb.readIndex % FLOAT == 0 && rb.writeIndex % FLOAT == 0
  {
    rb.WriteIndexFollows();
    MultiplesAdd(rb.readIndex, rb.CanRead());
    MultiplesAdd(rb.readIndex + rb.CanRead(), rb.buf.Length);
  }

  method PerformEach(rb: Rb, calls: seq<Call>) returns (seen: seq<Seen>)
    requires rb.Valid() && Aligned(rb.Abs()) && AllWhole(calls)
    modifies rb, rb.buf
    ensures rb.Valid() && rb.Abs() == AfterAll(old(rb.Abs()), calls) && seen == Trace(old(rb.Abs()), calls)
    decreases |calls|
  {
    if |calls| == 0 { return []; }
    CallKeepsAlignment(rb.Abs(), calls[0]);
    var first := Perform(rb, calls[0]);
    var rest := PerformEach(rb, calls[1..]);
    seen := [first] + rest;
  }
}
