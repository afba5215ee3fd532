/**
 What a ring buffer means to its callers: a bounded first-in-first-out byte queue,
 lying at the front of a cyclic window over the whole memory.
 */
module ByteQueue {
  import opened MachineInt
  import opened Cyclic

  /** Physical start index, number of readable bytes, and memory read cyclically from the start. */
  datatype View = View(r: nat, n: nat, ring: seq<byte>) {
    ghost predicate Ok() {
      r < |ring| && n <= |ring|
    }

    function Size(): nat {
      |ring|
    }

    /** The readable bytes, oldest first. */
    function Queue(): seq<byte>
      requires n <= |ring|
    {
      ring[..n]
    }

    /** How many bytes a peek of count bytes at offset returns. */
    function PeekCount(count: nat, offset: nat): nat {
      if n <= offset then 0 else Min(count, n - offset)
    }

    /** The peeked bytes lie on both sides of the physical end of the buffer. */
    predicate PeekSplits(count: nat, offset: nat) {
      && offset < n
      && r + offset < |ring| < r + offset + PeekCount(count, offset)
    }

    /**
     rb_peek_at subtracts the offset from the length of the second part, although
     that length does not contain it. Here the subtraction drops below zero.
     */
    predicate PeekOverruns(count: nat, offset: nat) {
      PeekSplits(count, offset) && r + PeekCount(count, offset) < |ring|
    }

    /** The bytes rb_peek_at stores: a split peek comes out offset bytes short. */
    function Peeked(count: nat, offset: nat): seq<byte>
      requires n <= |ring| && !PeekOverruns(count, offset)
    {
      var k := PeekCount(count, offset);
      if k == 0 then []
      else if PeekSplits(count, offset) then ring[offset..k]
      else ring[offset..offset + k]
    }

    /** Append data to the queue. */
    function Put(data: seq<byte>): View
      requires n + |data| <= |ring|
    {
      View(r, n + |data|, Patch(ring, n, data))
    }

    /** Move the start k bytes on; bytes beyond the readable ones leave the queue empty. */
    function Take(k: nat): View
      requires r < |ring| && k <= |ring|
    {
      View(Around(r + k, |ring|), if k <= n then n - k else 0, ring[k..] + ring[..k])
    }

    /** Start over at physical index 0 with nothing readable. */
    function Restart(): View
      requires r < |ring|
    {
      View(0, 0, Window(ring, Around(|ring| - r, |ring|)))
    }
  }

  /** What a caller sees of a call on a ring buffer; a peek may announce more bytes than it copies. */
  datatype Seen =
    | Count(n: nat)
    | Bytes(bytes: seq<byte>)
    | Space(canRead: nat, canWrite: nat)
    | Copied(announced: nat, bytes: seq<byte>)
    | Outside
    | Nothing

  lemma NoBytesNoChange(v: View)
    requires v.Ok()
    ensures v.Take(0) == v && v.Put([]) == v
  {
  }

  lemma PutAppends(v: View, data: seq<byte>)
    requires v.Ok() && v.n + |data| <= v.Size()
    ensures v.Put(data).Ok()
    ensures v.Put(data).Queue() == v.Queue() + data
  {
  }

  /** Copying behind the n readable bytes of a memory, and counting them in, is a put. */
  lemma PatchedView(memory: seq<byte>, r: nat, n: nat, w: nat, data: seq<byte>)
    requires r < |memory| && n + |data| <= |memory| && w == Around(r + n, |memory|)
    ensures View(r, n + |data|, Window(PatchCyclic(memory, w, data), r)) == View(r, n, Window(memory, r)).Put(data)
  {
    WindowOfPatch(memory, r, n, data);
  }

  lemma TakeRemoves(v: View, k: nat)
    requires v.Ok() && k <= v.Size()
    ensures v.Take(k).Ok()
    ensures v.Take(k).Queue() == if k <= v.n then v.Queue()[k..] else []
    ensures k <= v.n ==> v.ring[..k] == v.Queue()[..k]
  {
    if k <= v.n {
      assert v.Take(k).ring[..v.n - k] == v.ring[k..v.n];
    }
  }

  /** The queue bytes a peek announces through its return value. */
  function Announced(v: View, count: nat, offset: nat): seq<byte>
    requires v.Ok()
  {
    if v.n <= offset then [] else v.Queue()[offset..offset + v.PeekCount(count, offset)]
  }

  /**
   rb_peek_at leaves in its destination exactly the queue bytes it announces, for
   every destination, unless the offset is positive and the bytes straddle the end.
   */
  lemma PeekExact(v: View, count: nat, offset: nat)
    requires v.Ok()
    ensures (offset == 0 || !v.PeekSplits(count, offset)) <==>
            (&& !v.PeekOverruns(count, offset)
             && forall dest: seq<byte> :: |dest| == v.PeekCount(count, offset) ==>
                  Patch(dest, 0, v.Peeked(count, offset)) == Announced(v, count, offset))
  {
    var k := v.PeekCount(count, offset);
    if offset == 0 || !v.PeekSplits(count, offset) {
      assert v.Peeked(count, offset) == Announced(v, count, offset);
      forall dest: seq<byte> | |dest| == k
        ensures Patch(dest, 0, v.Peeked(count, offset)) == Announced(v, count, offset)
      {
      }
    } else if !v.PeekOverruns(count, offset) {
      PeekWrong(v, count, offset);
    }
  }

  lemma SplitInMemory(memory: seq<byte>, r: nat, from: nat, to: nat, start: nat, count1: nat, count2: nat)
    requires r < |memory| && from <= to <= |memory| && start == r + from < |memory| <= r + to
    requires count1 == |memory| - start && count2 == r + to - |memory|
    ensures memory[start..start + count1] + memory[..count2] == Window(memory, r)[from..to]
  {
    WindowSlice(memory, r, from, to);
  }

  lemma WholeInMemory(memory: seq<byte>, r: nat, from: nat, count: nat, start: nat, count1: nat, count2: nat)
    requires r < |memory| && from + count <= |memory| && start == Around(r + from, |memory|)
    requires r + from >= |memory| || r + from + count <= |memory|
    requires count1 == count && count2 == 0
    ensures start + count1 <= |memory|
    ensures memory[start..start + count1] + memory[..count2] == Window(memory, r)[from..from + count]
  {
    WindowSlice(memory, r, from, from + count);
  }

  /** The one or two parts of a peek in the memory behind the window, short as they may be. */
  lemma PeekedInMemory(v: View, memory: seq<byte>, count: nat, offset: nat, start: nat, count1: nat, count2: nat)
    requires v.Ok() && |memory| == v.Size() && v.ring == Window(memory, v.r)
    requires count > 0 && offset < v.n && !v.PeekOverruns(count, offset)
    requires start == Around(v.r + offset, v.Size())
    requires var done := v.PeekCount(count, offset);
             if v.PeekSplits(count, offset) then count1 == v.Size() - start
                 && count2 == start + done - v.Size() - offset
             else count1 == done && count2 == 0
    ensures start + count1 <= v.Size() && count2 <= v.Size() && count1 + count2 <= v.PeekCount(count, offset)
    ensures memory[start..start + count1] + memory[..count2] == v.Peeked(count, offset)
  {
    var done := v.PeekCount(count, offset);
    if v.PeekSplits(count, offset) {
      SplitInMemory(memory, v.r, offset, done, start, count1, count2);
    } else {
      WholeInMemory(memory, v.r, offset, done, start, count1, count2);
    }
  }

  /** The last bytes of a split peek at a positive offset are whatever was there before. */
  lemma PeekWrong(v: View, count: nat, offset: nat)
    requires v.Ok() && 0 < offset && v.PeekSplits(count, offset) && !v.PeekOverruns(count, offset)
    ensures exists dest: seq<byte> :: |dest| == v.PeekCount(count, offset)
              && Patch(dest, 0, v.Peeked(count, offset)) != Announced(v, count, offset)
  {
    var k := v.PeekCount(count, offset);
    var last := v.Queue()[offset + k - 1];
    var other: byte := if last == 0 then 1 else 0;
    var dest := seq(k, _ => other);
    assert Patch(dest, 0, v.Peeked(count, offset))[k - 1] == other;
    assert Announced(v, count, offset)[k - 1] == last;
  }

  /** Two concrete failures: a peek that leaves stale bytes, and one that would copy out of bounds. */
  lemma PeekFailures()
    ensures var v := View(2, 3, [1, 2, 3, 4]);
            v.Ok() && !v.PeekOverruns(2, 1) && Announced(v, 2, 1) == [2, 3]
                && Patch([9, 9], 0, v.Peeked(2, 1)) == [2, 9]
    ensures var w := View(1, 4, [1, 2, 3, 4]); w.Ok() && w.PeekOverruns(2, 2)
  {
    var v := View(2, 3, [1, 2, 3, 4]);
    assert v.PeekSplits(2, 1) && v.Peeked(2, 1) == [2];
    assert v.Queue() == [1, 2, 3] && Announced(v, 2, 1) == v.Queue()[1..3];
    assert Patch([9, 9], 0, [2]) == [2, 9];
  }
}
