/**
 The non-copying access of the JACK buffer: its readable and its writable slots as at most
 two stretches of memory each.
 */
module JackVectors {
  import opened MachineInt
  import opened Cyclic
  import opened ByteQueue
  import opened JackSpace
  import opened JackRing
  import opened RingBuffer
  import opened Regions

  /** The two entries of a vector for cnt slots from ptr on. */
  function VectorAt(g: Geometry, ptr: nat, cnt: nat): (Region, Region) {
    var cnt2 := Wrap64(ptr + cnt);
    if cnt2 > g.size then (Region(ptr, Wrap64(g.size - ptr)), Region(0, BitAnd(cnt2, g.mask)))
    else (Region(ptr, cnt), Region(ptr, 0))
  }

  lemma VectorIsDescribed(g: Geometry, ptr: nat, cnt: nat)
    requires JackSpace.Valid(g) && ptr < g.size && cnt < g.size
    ensures VectorAt(g, ptr, cnt) == Describe(ptr, cnt, g.size)
  {
    SplitCovers(g, ptr, cnt);
  }

  /** jack_ringbuffer_get_read_vector: the two parts hold the queue. */
  method GetReadVector(j: Jack) returns (a: Region, b: Region)
    requires j.Valid()
    ensures (a, b) == VectorAt(j.g, j.readPtr, ReadSpace(j.g, j.writePtr, j.readPtr))
    ensures a.start + a.size <= j.buf.Length && b.start + b.size <= j.buf.Length
    ensures j.buf[a.start..a.start + a.size] + j.buf[b.start..b.start + b.size] == j.Queue()
  {
    var canRead, _ := j.Spaces();
    VectorIsDescribed(j.g, j.readPtr, canRead);
    var v := VectorAt(j.g, j.readPtr, canRead);
    a, b := v.0, v.1;
    j.PartsAreWindow(canRead, a.size, b.size);
    assert j.buf[b.start..b.start + b.size] == j.buf[..b.size];
  }

  /** jack_ringbuffer_get_write_vector: the two parts offer the whole free space. */
  method GetWriteVector(j: Jack) returns (a: Region, b: Region)
    requires j.Valid()
    ensures (a, b) == Describe(j.writePtr, j.g.size - 1 - |j.Queue()|, j.g.size)
    ensures (a, b) == VectorAt(j.g, j.writePtr, WriteSpace(j.g, j.writePtr, j.readPtr))
    ensures a.size + b.size == j.g.size - 1 - |j.Queue()|
  {
    var _, canWrite := j.Spaces();
    SpacesMeasureDistance(j.g, j.writePtr, j.readPtr);
    VectorIsDescribed(j.g, j.writePtr, canWrite);
    var v := VectorAt(j.g, j.writePtr, canWrite);
    a, b := v.0, v.1;
  }

  /** Every slot is in exactly one of the vectors, but for the one before the read pointer, which is in none. */
  lemma VectorsLeaveOneSlot(g: Geometry, w: nat, r: nat, x: nat)
    requires JackSpace.Valid(g) && w < g.size && r < g.size && x < g.size
    ensures var readable := InRegions(x, VectorAt(g, r, ReadSpace(g, w, r)));
            var writable := InRegions(x, VectorAt(g, w, WriteSpace(g, w, r)));
            !(readable && writable) && (!readable && !writable <==> x == Around(r + g.size - 1, g.size))
  {
    SpacesMeasureDistance(g, w, r);
    VectorIsDescribed(g, r, ReadSpace(g, w, r));
    VectorIsDescribed(g, w, WriteSpace(g, w, r));
  }

  /** Filling the write vector and advancing leaves the state that jack_ringbuffer_write leaves. */
  method WriteThroughVector(j: Jack, source: seq<byte>)
    requires j.Valid() && |j.Queue()| + |source| < j.g.size
    modifies j, j.buf
    ensures j.Valid() && j.Abs() == old(j.Abs()).Put(source)
  {
    var a, b := GetWriteVector(j);
    FillVector(j, a, b, source);
    j.WriteAdvance(|source|);
  }

  method FillVector(j: Jack, a: Region, b: Region, source: seq<byte>)
    requires j.Valid() && |j.Queue()| + |source| < j.g.size
    requires (a, b) == Describe(j.writePtr, j.g.size - 1 - |j.Queue()|, j.g.size)
    modifies j.buf
    ensures j.Valid() && j.Abs() == old(j.Abs()).Put(source).(n := old(j.Abs()).n)
  {
    ghost var n, after := j.Abs().n, PatchCyclic(j.buf[..], j.writePtr, source);
    PatchedView(j.buf[..], j.readPtr, n, j.writePtr, source);
    FillBoth(j.buf, j.writePtr, j.g.size - 1 - n, a, b, source);
    assert j.buf[..] == after;
  }
}
