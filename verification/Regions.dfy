/**
 Direct access to a ring buffer: the readable and writable space described as at most
 two stretches of memory each, and the index advances that follow such access.
 */
module Regions {
  import opened MachineInt
  import opened Cyclic
  import opened ByteQueue
  import opened RingBuffer

  /** rb_get_read_regions and rb_get_write_regions: count bytes from index start on. */
  function Describe(start: nat, count: nat, size: nat): (Region, Region)
    requires start < size
  {
    if start + count > size then (Region(start, size - start), Region(0, start + count - size))
    else (Region(start, count), Region(start, 0))
  }

  function ReadRegions(rb: Rb): (Region, Region)
    requires rb.Valid()
    reads rb
  {
    Describe(rb.readIndex, rb.CanRead(), rb.buf.Length)
  }

  function WriteRegions(rb: Rb): (Region, Region)
    requires rb.Valid()
    reads rb
  {
    Describe(rb.writeIndex, rb.CanWrite(), rb.buf.Length)
  }

  /** rb_get_next_read_region. */
  function NextReadRegion(rb: Rb): Region
    requires rb.Valid()
    reads rb
  {
    ReadRegions(rb).0
  }

  predicate InRegion(x: nat, g: Region) {
    g.start <= x < g.start + g.size
  }

  predicate InRegions(x: nat, gs: (Region, Region)) {
    InRegion(x, gs.0) || InRegion(x, gs.1)
  }

  /** The read regions, one after the other, are the queue. */
  lemma ReadRegionsHoldQueue(rb: Rb)
    requires rb.Valid()
    ensures var (a, b) := ReadRegions(rb);
            && a.start + a.size <= rb.buf.Length && b.start + b.size <= rb.buf.Length
            && rb.buf[a.start..a.start + a.size] + rb.buf[b.start..b.start + b.size] == rb.Queue()
  {
    var (a, b) := ReadRegions(rb);
    rb.PartsAreWindow(rb.CanRead(), a.size, b.size);
    assert rb.buf[b.start..b.start + b.size] == rb.buf[..b.size];
  }

  /** Every byte of the buffer lies in exactly one of the four regions. */
  lemma RegionsPartition(rb: Rb, x: nat)
    requires rb.Valid()
    ensures x < rb.buf.Length <==> (InRegions(x, ReadRegions(rb)) || InRegions(x, WriteRegions(rb)))
    ensures !(InRegions(x, ReadRegions(rb)) && InRegions(x, WriteRegions(rb)))
    ensures !(InRegion(x, ReadRegions(rb).0) && InRegion(x, ReadRegions(rb).1))
    ensures !(InRegion(x, WriteRegions(rb).0) && InRegion(x, WriteRegions(rb).1))
  {
  }

  /** Filling the write regions and advancing leaves the state that rb_write leaves. */
  method WriteDirectly(rb: Rb, source: seq<byte>)
    requires rb.Valid() && |source| <= rb.CanWrite()
    modifies rb, rb.buf
    ensures rb.Valid()
    ensures rb.Abs() == old(rb.Abs()).Put(source)
    ensures rb.lastWasWrite == (|source| > 0 || old(rb.lastWasWrite))
    ensures rb.stats == if |source| == 0 then old(rb.stats)
                        else old(rb.stats).(write := Wrap64(old(rb.stats).write + |source|))
  {
    var (a, b) := WriteRegions(rb);
    FillRegions(rb, a, b, source);
    label filled:
    var done := rb.AdvanceWriteIndex(|source|);
    assert rb.Abs() == old@filled(rb.Abs()).(n := old(rb.Abs()).n + |source|);
  }

  method FillRegions(rb: Rb, a: Region, b: Region, source: seq<byte>)
    requires rb.Valid() && |source| <= rb.CanWrite() && (a, b) == WriteRegions(rb)
    modifies rb.buf
    ensures rb.Abs() == old(rb.Abs()).Put(source).(n := old(rb.Abs()).n)
  {
    rb.WriteIndexFollows();
    PatchedView(rb.buf[..], rb.readIndex, rb.CanRead(), rb.writeIndex, source);
    ghost var after := PatchCyclic(rb.buf[..], rb.writeIndex, source);
    FillBoth(rb.buf, rb.writeIndex, rb.CanWrite(), a, b, source);
    assert rb.buf[..] == after;
  }

  method FillBoth(buf: array<byte>, w: nat, ghost count: nat, a: Region, b: Region, source: seq<byte>)
    requires w < buf.Length && |source| <= buf.Length
    requires |source| <= count <= buf.Length && (a, b) == Describe(w, count, buf.Length)
    modifies buf
    ensures buf[..] == PatchCyclic(old(buf[..]), w, source)
  {
    if |source| <= a.size {
      Memcpy(buf, a.start, source);
    } else {
      Memcpy(buf, a.start, source[..a.size]);
      Memcpy(buf, b.start, source[a.size..]);
    }
  }

  /** Copying from the read regions and advancing does what rb_read does. */
  method ReadDirectly(rb: Rb, count: nat) returns (data: seq<byte>)
    requires rb.Valid() && count <= rb.CanRead()
    modifies rb
    ensures rb.Valid()
    ensures data == old(rb.Queue())[..count]
    ensures rb.Abs() == old(rb.Abs()).Take(count)
    ensures rb.lastWasWrite == (count == 0 && old(rb.lastWasWrite))
    ensures rb.stats == if count == 0 then old(rb.stats)
                        else old(rb.stats).(read := Wrap64(old(rb.stats).read + count))
  {
    data := CopyFromRegions(rb, count);
    var done := rb.GenericAdvanceReadIndex(count, false);
  }

  lemma FrontOfRegions(memory: seq<byte>, a: Region, b: Region, q: seq<byte>, count: nat)
    requires a.start + a.size <= |memory| && b.start + b.size <= |memory| && count <= |q|
    requires q == memory[a.start..a.start + a.size] + memory[b.start..b.start + b.size]
    ensures q[..count] ==
            if count <= a.size then memory[a.start..a.start + count]
            else memory[a.start..a.start + a.size] + memory[b.start..b.start + (count - a.size)]
  {
  }

  method CopyFromRegions(rb: Rb, count: nat) returns (data: seq<byte>)
    requires rb.Valid() && count <= rb.CanRead()
    ensures data == rb.Queue()[..count]
  {
    var (a, b) := ReadRegions(rb);
    ReadRegionsHoldQueue(rb);
    FrontOfRegions(rb.buf[..], a, b, rb.Queue(), count);
    if count <= a.size {
      data := rb.buf[a.start..a.start + count];
    } else {
      data := rb.buf[a.start..a.start + a.size] + rb.buf[b.start..b.start + (count - a.size)];
    }
  }

  /** Rounds of taking the next read region until the buffer is empty. */
  function RoundsLeft(rb: Rb): nat
    requires rb.Valid()
    reads rb
  {
    if rb.CanRead() == 0 then 0 else if rb.readIndex + rb.CanRead() > rb.buf.Length then 2 else 1
  }

  /** One round: copy the next read region and advance over it. */
  method DrainNext(rb: Rb) returns (data: seq<byte>)
    requires rb.Valid() && rb.CanRead() > 0
    modifies rb
    ensures rb.Valid()
    ensures data + rb.Queue() == old(rb.Queue())
    ensures RoundsLeft(rb) == old(RoundsLeft(rb)) - 1
  {
    var g := NextReadRegion(rb);
    ReadRegionsHoldQueue(rb);
    ghost var view := rb.Abs();
    TakeRemoves(view, g.size);
    data := rb.buf[g.start..g.start + g.size];
    assert data == view.Queue()[..g.size];
    var done := rb.GenericAdvanceReadIndex(g.size, false);
  }

  /** Draining region by region delivers the whole queue in at most two rounds. */
  method DrainDirectly(rb: Rb) returns (data: seq<byte>, rounds: nat)
    requires rb.Valid()
    modifies rb
    ensures rb.Valid()
    ensures data == old(rb.Queue()) && rb.Queue() == []
    ensures rounds <= 2
  {
    data, rounds := [], 0;
    ghost var queue, rest := rb.Queue(), rb.Queue();
    while rb.CanRead() > 0
      invariant rb.Valid()
      invariant rest == rb.Queue() && data + rest == queue
      invariant rounds + RoundsLeft(rb) <= 2
      decreases RoundsLeft(rb)
    {
      var chunk := DrainNext(rb);
      rest := rb.Queue();
      ConcatAssociates(data, chunk, rest);
      data := data + chunk;
      rounds := rounds + 1;
    }
  }
}
