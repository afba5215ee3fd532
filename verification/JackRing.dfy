/** The JACK ring buffer as one thread sees it: calls run to completion. */
module JackRing {
  import opened MachineInt
  import opened Cyclic
  import opened ByteQueue
  import opened JackSpace

  class Jack {
    const g: Geometry
    const buf: array<byte>
    var readPtr: nat
    var writePtr: nat

    ghost predicate Valid()
      reads this
    {
      && JackSpace.Valid(g)
      && buf.Length == g.size
      && readPtr < g.size && writePtr < g.size
    }

    /** jack_ringbuffer_create. */
    constructor (sz: nat)
      requires sz <= 0x4000_0000
      ensures Valid() && fresh(buf)
      ensures Abs().n == 0 && sz <= g.size && (g.size == 2 || g.size / 2 < sz)
    {
      var geometry := Create(sz);
      g := geometry;
      buf := new byte[geometry.size];
      readPtr, writePtr := 0, 0;
      new;
      SpacesMeasureDistance(g, 0, 0);
    }

    ghost function Abs(): (v: View)
      requires Valid()
      reads this, buf
      ensures v.Ok() && v.Size() == g.size && v.n < g.size
      ensures writePtr == Around(v.r + v.n, g.size)
    {
      SpacesMeasureDistance(g, writePtr, readPtr);
      ViewOf(g, buf[..], writePtr, readPtr)
    }

    ghost function Queue(): seq<byte>
      requires Valid()
      reads this, buf
    {
      Abs().Queue()
    }

    method Reset()
      requires Valid()
      modifies this
      ensures Valid() && Queue() == [] && readPtr == writePtr == 0
    {
      readPtr := 0;
      writePtr := 0;
      SpacesMeasureDistance(g, 0, 0);
    }

    /** jack_ringbuffer_read_space and jack_ringbuffer_write_space. */
    method Spaces() returns (canRead: nat, canWrite: nat)
      requires Valid()
      ensures canRead == |Queue()| && canWrite == g.size - 1 - |Queue()|
    {
      SpacesMeasureDistance(g, writePtr, readPtr);
      canRead := JackSpace.ReadSpace(g, writePtr, readPtr);
      canWrite := JackSpace.WriteSpace(g, writePtr, readPtr);
    }

    /** jack_ringbuffer_peek. */
    method Peek(count: nat) returns (data: seq<byte>)
      requires Valid()
      ensures data == Queue()[..Min(count, |Queue()|)]
    {
      var freeCnt, _ := Spaces();
      if freeCnt == 0 { return []; }
      var toRead := if count > freeCnt then freeCnt else count;
      data := PeekAll(toRead);
    }

    /** The lengths of the copy below the physical end and of the one from slot 0. */
    method Parts(ptr: nat, cnt: nat) returns (n1: nat, n2: nat)
      requires JackSpace.Valid(g) && ptr < g.size && cnt < g.size
      ensures n1 + n2 == cnt && ptr + n1 <= g.size
      ensures n2 > 0 ==> ptr + n1 == g.size && n2 < ptr
    {
      SplitCovers(g, ptr, cnt);
      n1, n2 := Split(g, ptr, cnt).0, Split(g, ptr, cnt).1;
    }

    method PeekAll(toRead: nat) returns (data: seq<byte>)
      requires Valid() && toRead <= |Queue()|
      ensures data == Queue()[..toRead]
    {
      var n1, n2 := Parts(readPtr, toRead);
      AdvanceWraps(g, readPtr, n1);
      PartsAreWindow(toRead, n1, n2);
      var tmpReadPtr := Advance(g, readPtr, n1);
      data := buf[readPtr..readPtr + n1] + if n2 != 0 then buf[tmpReadPtr..tmpReadPtr + n2] else [];
    }

    /** jack_ringbuffer_read: the same copying, with the pointer stored after each part. */
    method Read(count: nat) returns (data: seq<byte>)
      requires Valid()
      modifies this`readPtr
      ensures Valid()
      ensures data == old(Queue())[..Min(count, |old(Queue())|)]
      ensures Abs() == old(Abs()).Take(Min(count, |old(Queue())|))
    {
      NoBytesNoChange(Abs());
      var freeCnt, _ := Spaces();
      if freeCnt == 0 { return []; }
      var toRead := if count > freeCnt then freeCnt else count;
      data := ReadAll(toRead);
    }

    method ReadAll(toRead: nat) returns (data: seq<byte>)
      requires Valid() && toRead <= |Queue()|
      modifies this`readPtr
      ensures Valid()
      ensures data == old(Queue())[..toRead]
      ensures Abs() == old(Abs()).Take(toRead)
    {
      var n1, n2 := Parts(readPtr, toRead);
      data := ReadParts(toRead, n1, n2);
    }

    /** One or two copies, each with its pointer store. */
    method ReadParts(ghost toRead: nat, n1: nat, n2: nat) returns (data: seq<byte>)
      requires Valid() && n1 + n2 == toRead <= |Queue()| && readPtr + n1 <= g.size
      requires n2 > 0 ==> readPtr + n1 == g.size && n2 <= g.size
      modifies this`readPtr
      ensures Valid()
      ensures data == old(Queue())[..toRead]
      ensures Abs() == old(Abs()).Take(toRead)
    {
      ghost var view := Abs();
      data := ReadPart(n1);
      if n2 != 0 {
        TakeTwice(view, n1, n2, toRead);
        var rest := ReadPart(n2);
        data := data + rest;
      }
    }

    /** One memcpy that stays below the physical end, and the pointer store behind it. */
    method ReadPart(count: nat) returns (data: seq<byte>)
      requires Valid() && count <= |Queue()| && readPtr + count <= g.size
      modifies this`readPtr
      ensures Valid()
      ensures data == old(Queue())[..count]
      ensures Abs() == old(Abs()).Take(count)
      ensures readPtr == Around(old(readPtr) + count, g.size)
    {
      PartsAreWindow(count, count, 0);
      data := buf[readPtr..readPtr + count];
      assert data == Queue()[..count];
      ReadAdvance(count);
    }

    lemma PartsAreWindow(toRead: nat, n1: nat, n2: nat)
      requires Valid() && toRead == n1 + n2 <= buf.Length && readPtr + n1 <= buf.Length
      requires n2 > 0 ==> readPtr + n1 == buf.Length
      ensures buf[readPtr..readPtr + n1] + buf[..n2] == Window(buf[..], readPtr)[..toRead]
    {
      WindowPrefix(buf[..], readPtr, toRead);
    }

    lemma TakeTwice(v: View, n1: nat, n2: nat, n: nat)
      requires v.Ok() && n1 + n2 == n <= v.n
      ensures v.Take(n1).Ok() && v.Take(n1).Take(n2) == v.Take(n)
      ensures v.Queue()[..n1] + v.Take(n1).Queue()[..n2] == v.Queue()[..n]
    {
      RotateTwice(v.ring, n1, n2);
      TakeRemoves(v, n1);
      FrontInParts(v.Queue(), n1, n2);
    }

    lemma FrontInParts(s: seq<byte>, n1: nat, n2: nat)
      requires n1 + n2 <= |s|
      ensures s[..n1] + s[n1..][..n2] == s[..n1 + n2]
    {
    }

    /** jack_ringbuffer_read_advance: it does not check, so beyond the readable bytes the count wraps. */
    method ReadAdvance(count: nat)
      requires Valid()
      modifies this`readPtr
      ensures Valid() && readPtr == (old(readPtr) + count) % g.size
      ensures |Queue()| == (|old(Queue())| - count) % g.size
      ensures count <= |old(Queue())| ==> Abs() == old(Abs()).Take(count)
    {
      SpaceShrinks(g, writePtr, readPtr, count);
      if count <= JackSpace.ReadSpace(g, writePtr, readPtr) {
        TakenView(g, buf[..], writePtr, readPtr, count);
      }
      readPtr := Advance(g, readPtr, count);
    }

    static lemma SpaceShrinks(g: Geometry, w: nat, r: nat, count: nat)
      requires JackSpace.Valid(g) && w < g.size && r < g.size
      ensures Advance(g, r, count) == (r + count) % g.size < g.size
      ensures JackSpace.ReadSpace(g, w, Advance(g, r, count)) == (JackSpace.ReadSpace(g, w, r) - count) % g.size
    {
      AdvanceIsMod(g, r, count);
      var r' := Advance(g, r, count);
      SpaceReaches(g, w, r);
      SpaceReaches(g, w, r');
      DistanceBehind(g.size, r, JackSpace.ReadSpace(g, w, r), r', JackSpace.ReadSpace(g, w, r'), count);
    }

    /** The abstract value as a function of the fields. */
    static ghost function ViewOf(g: Geometry, memory: seq<byte>, w: nat, r: nat): View
      requires JackSpace.Valid(g) && |memory| == g.size && w < g.size && r < g.size
    {
      View(r, JackSpace.ReadSpace(g, w, r), Window(memory, r))
    }

    static lemma TakenView(g: Geometry, memory: seq<byte>, w: nat, r: nat, count: nat)
      requires JackSpace.Valid(g) && |memory| == g.size && w < g.size && r < g.size
      requires count <= JackSpace.ReadSpace(g, w, r)
      ensures ViewOf(g, memory, w, r).Ok() && Advance(g, r, count) < g.size
      ensures ViewOf(g, memory, w, Advance(g, r, count)) == ViewOf(g, memory, w, r).Take(count)
    {
      SpacesMeasureDistance(g, w, r);
      AdvanceWraps(g, r, count);
      SpacesMeasureDistance(g, w, Advance(g, r, count));
      WindowRotates(memory, r, count);
    }

    static lemma AdvanceIsMod(g: Geometry, ptr: nat, count: nat)
      requires JackSpace.Valid(g) && ptr < g.size
      ensures Advance(g, ptr, count) == (ptr + count) % g.size
    {
      ModUnique(ptr, 0, g.size, ptr);
      AdvanceTracksTotal(g, ptr, count);
    }

    /** Moving the start of a cyclic distance on by a count takes the count off it, modulo the size. */
    static lemma DistanceBehind(size: nat, r: nat, n: nat, r': nat, n': nat, count: nat)
      requires r < size && n < size && n' < size && r' == (r + count) % size
      requires Around(r + n, size) == Around(r' + n', size)
      ensures n' == (n - count) % size
    {
      var a, k, k' := (r + count) / size, LapsOf(r + n, size), LapsOf(r' + n', size);
      var w := Around(r + n, size);
      assert r + count == a * size + r' && r + n == w + k * size && r' + n' == w + k' * size;
      LapsAdd(-a, k, k', size);
      RemainderUnique(n - count, k - a - k', size, n');
    }

    static lemma RemainderUnique(x: int, q: int, m: nat, r: nat)
      requires r < m && x == q * m + r
      ensures x % m == r
    {
      DivisionUnique(m, q, r, x / m, x % m);
    }

    /** jack_ringbuffer_write. */
    method Write(source: seq<byte>) returns (toWrite: nat)
      requires Valid()
      modifies this`writePtr, buf
      ensures Valid()
      ensures toWrite == Min(|source|, g.size - 1 - |old(Queue())|)
      ensures Abs() == old(Abs()).Put(source[..toWrite])
    {
      NoBytesNoChange(Abs());
      var _, freeCnt := Spaces();
      if freeCnt == 0 { return 0; }
      toWrite := if |source| > freeCnt then freeCnt else |source|;
      WriteAll(source, toWrite);
    }

    method WriteAll(source: seq<byte>, toWrite: nat)
      requires Valid() && toWrite <= |source| && |Queue()| + toWrite < g.size
      modifies this`writePtr, buf
      ensures Valid()
      ensures Abs() == old(Abs()).Put(source[..toWrite])
    {
      var n1, n2 := Parts(writePtr, toWrite);
      WriteParts(source, n1, n2);
    }

    /** One or two copies, each with its pointer store. */
    method WriteParts(source: seq<byte>, n1: nat, n2: nat)
      requires Valid() && n1 + n2 <= |source| && |Queue()| + n1 + n2 < g.size
      requires writePtr + n1 <= g.size && (n2 > 0 ==> writePtr + n1 == g.size && n2 <= g.size)
      modifies this`writePtr, buf
      ensures Valid()
      ensures Abs() == old(Abs()).Put(source[..n1 + n2])
    {
      ghost var view := Abs();
      WritePart(source[..n1]);
      if n2 != 0 {
        PutTwice(view, source, n1, n2);
        WritePart(source[n1..n1 + n2]);
      }
    }

    lemma PutTwice(v: View, source: seq<byte>, n1: nat, n2: nat)
      requires v.Ok() && v.n + n1 + n2 <= v.Size() && n1 + n2 <= |source|
      ensures v.Put(source[..n1]).Put(source[n1..n1 + n2]) == v.Put(source[..n1 + n2])
    {
    }

    /** One memcpy that stays below the physical end, and the pointer store behind it. */
    method WritePart(data: seq<byte>)
      requires Valid() && |Queue()| + |data| < g.size && writePtr + |data| <= g.size
      modifies this`writePtr, buf
      ensures Valid()
      ensures Abs() == old(Abs()).Put(data)
      ensures writePtr == Around(old(writePtr) + |data|, g.size)
    {
      ghost var after := PatchCyclic(buf[..], writePtr, data);
      WrittenView(g, buf[..], writePtr, readPtr, data);
      AdvanceIsMod(g, writePtr, |data|);
      AdvanceWraps(g, writePtr, |data|);
      Memcpy(buf, writePtr, data);
      assert buf[..] == after;
      WriteAdvance(|data|);
    }

    static lemma SpaceGrows(g: Geometry, w: nat, r: nat, count: nat)
      requires JackSpace.Valid(g) && w < g.size && r < g.size
      requires JackSpace.ReadSpace(g, w, r) + count < g.size
      ensures Advance(g, w, count) < g.size && w == Around(r + JackSpace.ReadSpace(g, w, r), g.size)
      ensures JackSpace.ReadSpace(g, Advance(g, w, count), r) == JackSpace.ReadSpace(g, w, r) + count
    {
      SpacesMeasureDistance(g, w, r);
      AdvanceWraps(g, w, count);
      SpacesMeasureDistance(g, Advance(g, w, count), r);
    }

    static lemma WrittenView(g: Geometry, memory: seq<byte>, w: nat, r: nat, data: seq<byte>)
      requires JackSpace.Valid(g) && |memory| == g.size && w < g.size && r < g.size
      requires JackSpace.ReadSpace(g, w, r) + |data| < g.size
      ensures ViewOf(g, memory, w, r).Ok() && Advance(g, w, |data|) < g.size
      ensures ViewOf(g, PatchCyclic(memory, w, data), Advance(g, w, |data|), r) == ViewOf(g, memory, w, r).Put(data)
    {
      SpaceGrows(g, w, r, |data|);
      PatchedView(memory, r, JackSpace.ReadSpace(g, w, r), w, data);
    }

    /** jack_ringbuffer_write_advance: it does not check, so beyond the writable space the count wraps. */
    method WriteAdvance(count: nat)
      requires Valid()
      modifies this`writePtr
      ensures Valid() && writePtr == (old(writePtr) + count) % g.size
      ensures |Queue()| == (|old(Queue())| + count) % g.size
      ensures |old(Queue())| + count < g.size ==> Abs() == old(Abs()).(n := old(Abs()).n + count)
    {
      SpaceWraps(g, writePtr, readPtr, count);
      if JackSpace.ReadSpace(g, writePtr, readPtr) + count < g.size {
        SpaceGrows(g, writePtr, readPtr, count);
      }
      writePtr := Advance(g, writePtr, count);
    }

    static lemma SpaceWraps(g: Geometry, w: nat, r: nat, count: nat)
      requires JackSpace.Valid(g) && w < g.size && r < g.size
      ensures Advance(g, w, count) == (w + count) % g.size < g.size
      ensures JackSpace.ReadSpace(g, Advance(g, w, count), r) == (JackSpace.ReadSpace(g, w, r) + count) % g.size
    {
      AdvanceIsMod(g, w, count);
      var w' := Advance(g, w, count);
      SpaceReaches(g, w, r);
      SpaceReaches(g, w', r);
      DistanceAhead(g.size, r, JackSpace.ReadSpace(g, w, r), w, JackSpace.ReadSpace(g, w', r), w', count);
    }

    static lemma SpaceReaches(g: Geometry, w: nat, r: nat)
      requires JackSpace.Valid(g) && w < g.size && r < g.size
      ensures JackSpace.ReadSpace(g, w, r) < g.size && w == Around(r + JackSpace.ReadSpace(g, w, r), g.size)
    {
      SpacesMeasureDistance(g, w, r);
    }

    /** Moving the end of a cyclic distance on by a count adds the count to it, modulo the size. */
    static lemma DistanceAhead(size: nat, r: nat, n: nat, w: nat, n': nat, w': nat, count: nat)
      requires r < size && n < size && n' < size && w == Around(r + n, size) && w' == Around(r + n', size)
      requires w' == (w + count) % size
      ensures n' == (n + count) % size
    {
      var a, k, k' := (w + count) / size, LapsOf(r + n, size), LapsOf(r + n', size);
      assert w + count == a * size + w' && r + n == w + k * size && r + n' == w' + k' * size;
      LapsAdd(a, k, k', size);
      RemainderUnique(n + count, a + k - k', size, n');
    }

    static function LapsOf(i: nat, size: nat): nat {
      if i < size then 0 else 1
    }

    static lemma LapsAdd(a: int, k: int, k': int, size: nat)
      ensures (a + k - k') * size == a * size + k * size - k' * size
    {
    }
  }
}
