/**
 rb_float.h: four-byte floats moved through a ring buffer all or nothing. A float is
 kept as its four bytes.
 */
module FloatQueue {
  import opened MachineInt
  import opened Options
  import opened Cyclic
  import opened ByteQueue
  import opened RingBuffer

  const FLOAT: nat := 4

  /** Buffer size, start index and fill all fall on float boundaries. */
  predicate Aligned(v: View) {
    v.Size() % FLOAT == 0 && v.r % FLOAT == 0 && v.n % FLOAT == 0
  }

  /** The queue as whole floats, oldest first. */
  function Floats(q: seq<byte>): (f: seq<seq<byte>>)
    ensures |f| == |q| / FLOAT
  {
    seq(|q| / FLOAT, i requires 0 <= i < |q| / FLOAT => q[FLOAT * i..FLOAT * i + FLOAT])
  }

  /** Appending whole floats to whole floats. */
  lemma FloatsAppend(q: seq<byte>, x: seq<byte>)
    requires |q| % FLOAT == 0 && |x| % FLOAT == 0
    ensures Floats(q + x) == Floats(q) + Floats(x)
  {
    var left, right := Floats(q + x), Floats(q) + Floats(x);
    assert |left| == |right|;
    forall i | 0 <= i < |left| ensures left[i] == right[i] {
      if i < |q| / FLOAT {
        assert (q + x)[FLOAT * i..FLOAT * i + FLOAT] == q[FLOAT * i..FLOAT * i + FLOAT];
      } else {
        var k := i - |q| / FLOAT;
        assert (q + x)[FLOAT * i..FLOAT * i + FLOAT] == x[FLOAT * k..FLOAT * k + FLOAT];
      }
    }
  }

  lemma OneFloat(x: seq<byte>)
    requires |x| == FLOAT
    ensures Floats(x) == [x]
  {
    assert x[FLOAT * 0..FLOAT * 0 + FLOAT] == x;
  }

  lemma MultiplesAdd(a: int, b: int)
    requires a % FLOAT == 0 && b % FLOAT == 0
    ensures (a + b) % FLOAT == 0 && (a - b) % FLOAT == 0
  {
    var x, y := a / FLOAT, b / FLOAT;
    assert a == FLOAT * x && b == FLOAT * y;
    assert a + b == FLOAT * (x + y) && a - b == FLOAT * (x - y);
  }

  lemma TakeKeepsAlignment(v: View, k: nat)
    requires v.Ok() && Aligned(v) && k % FLOAT == 0 && k <= v.Size()
    ensures Aligned(v.Take(k))
  {
    MultiplesAdd(v.r, k);
    MultiplesAdd(v.r + k, v.Size());
    MultiplesAdd(v.n, k);
  }

  /** Every transfer of whole floats, even one cut short by a full or empty buffer, keeps alignment. */
  lemma TransfersKeepAlignment(v: View, k: nat, data: seq<byte>)
    requires v.Ok() && Aligned(v) && k % FLOAT == 0 && |data| % FLOAT == 0
    ensures Aligned(v.Take(Min(k, v.n)))
    ensures Aligned(v.Take(Min(k, v.Size())))
    ensures Aligned(v.Put(data[..Min(|data|, v.Size() - v.n)]))
  {
    TakeKeepsAlignment(v, Min(k, v.n));
    TakeKeepsAlignment(v, Min(k, v.Size()));
    MultiplesAdd(v.Size(), v.n);
    var count := Min(|data|, v.Size() - v.n);
    assert |data[..count]| % FLOAT == 0;
    PutKeepsAlignment(v, data[..count]);
  }

  lemma PutKeepsAlignment(v: View, data: seq<byte>)
    requires v.Ok() && Aligned(v) && |data| % FLOAT == 0 && v.n + |data| <= v.Size()
    ensures Aligned(v.Put(data))
  {
  }

  /** In an aligned buffer no float at a float offset straddles the physical end. */
  lemma AlignedFloatsNeverSplit(v: View, offset: nat)
    requires v.Ok() && Aligned(v) && offset % FLOAT == 0
    ensures !v.PeekSplits(FLOAT, offset)
    ensures offset + FLOAT <= v.n ==> Announced(v, FLOAT, offset) == Floats(v.Queue())[offset / FLOAT]
  {
    if offset + FLOAT <= v.n {
      assert FLOAT * (offset / FLOAT) == offset;
    }
  }

  method ReadFloat(rb: Rb, destination: array<byte>) returns (done: nat)
    requires rb.Valid() && destination != rb.buf && FLOAT <= destination.Length
    modifies rb, destination
    ensures rb.Valid()
    ensures done == if 4 <= |old(rb.Queue())| then 4 else 0
    ensures rb.Abs() == old(rb.Abs()).Take(done)
    ensures destination[..] == old(rb.Queue())[..done] + old(destination[..])[done..]
    ensures rb.stats == if done > 0 then old(rb.stats).(read := Wrap64(old(rb.stats).read + FLOAT))
                        else old(rb.stats).(underflows := Wrap64(old(rb.stats).underflows + 1))
    ensures old(Aligned(rb.Abs())) && done > 0 ==>
              && Aligned(rb.Abs())
              && Floats(old(rb.Queue())) == [destination[..FLOAT]] + Floats(rb.Queue())
  {
    ghost var view := rb.Abs();
    if rb.CanRead() < FLOAT {
      NoBytesNoChange(view);
      rb.stats := rb.stats.(underflows := Wrap64(rb.stats.underflows + 1));
      return 0;
    }
    FirstFloat(view);
    done := rb.GenericRead(destination, 0, FLOAT, false);
  }

  /** Taking one float off the front of an aligned queue. */
  lemma FirstFloat(v: View)
    requires v.Ok() && FLOAT <= v.n
    ensures v.ring[..FLOAT] == v.Queue()[..FLOAT]
    ensures v.Take(FLOAT).Queue() == v.Queue()[FLOAT..]
    ensures Aligned(v) ==> Aligned(v.Take(FLOAT))
    ensures Aligned(v) ==> Floats(v.Queue()) == [v.Queue()[..FLOAT]] + Floats(v.Queue()[FLOAT..])
  {
    TakeRemoves(v, FLOAT);
    if Aligned(v) {
      OneFloat(v.Queue()[..FLOAT]);
      FloatsAppend(v.Queue()[..FLOAT], v.Queue()[FLOAT..]);
      assert v.Queue() == v.Queue()[..FLOAT] + v.Queue()[FLOAT..];
    }
  }

  /** What a peek for one float leaves in its destination. */
  lemma PeekedFloat(v: View, dest: seq<byte>, offset: nat)
    requires v.Ok() && v.Size() <= MAX_SIZE && FLOAT <= |dest| && offset < TWO_TO_64
    ensures Wrap64(offset + FLOAT) <= v.n ==> v.PeekCount(FLOAT, offset) == if offset + FLOAT <= v.n then FLOAT else 0
    ensures v.n < Wrap64(offset + FLOAT) ==> v.n < offset + FLOAT
    ensures v.PeekCount(FLOAT, offset) == 0 ==>
              !v.PeekOverruns(FLOAT, offset) && Patch(dest, 0, v.Peeked(FLOAT, offset)) == dest
    ensures offset + FLOAT <= v.n && (offset == 0 || !v.PeekSplits(FLOAT, offset)) ==>
              && !v.PeekOverruns(FLOAT, offset)
              && Patch(dest, 0, v.Peeked(FLOAT, offset)) == v.Queue()[offset..offset + FLOAT] + dest[FLOAT..]
    ensures Aligned(v) && offset % FLOAT == 0 && offset + FLOAT <= v.n ==>
              !v.PeekSplits(FLOAT, offset) && v.Queue()[offset..offset + FLOAT] == Floats(v.Queue())[offset / FLOAT]
  {
    if Aligned(v) && offset % FLOAT == 0 {
      AlignedFloatsNeverSplit(v, offset);
    }
  }

  /** rb_peek_float_at; None where rb_peek_at would copy out of bounds. */
  method PeekFloatAt(rb: Rb, destination: array<byte>, offset: nat) returns (done: Option<nat>)
    requires rb.Valid() && destination != rb.buf && FLOAT <= destination.Length && offset < TWO_TO_64
    modifies rb`stats, destination
    ensures rb.Valid() && rb.Abs() == old(rb.Abs())
    ensures done == if offset + FLOAT > |rb.Queue()| then Some(0)
                    else if rb.Abs().PeekOverruns(FLOAT, offset) then None else Some(FLOAT)
    ensures done == Some(0) ==> destination[..] == old(destination[..])
    ensures done == Some(FLOAT) && (offset == 0 || !rb.Abs().PeekSplits(FLOAT, offset)) ==>
              destination[..] == rb.Queue()[offset..offset + FLOAT] + old(destination[..])[FLOAT..]
    ensures done == Some(FLOAT) ==>
              destination[..] == Patch(old(destination[..]), 0, rb.Abs().Peeked(FLOAT, offset))
    ensures Aligned(rb.Abs()) && offset % FLOAT == 0 && offset + FLOAT <= |rb.Queue()| ==>
              done == Some(FLOAT) && destination[..FLOAT] == Floats(rb.Queue())[offset / FLOAT]
    ensures done.Some? ==>
              rb.stats == if done.value > 0 then old(rb.stats).(peek := Wrap64(old(rb.stats).peek + FLOAT))
                          else old(rb.stats).(underflows := Wrap64(old(rb.stats).underflows + 1))
  {
    PeekedFloat(rb.Abs(), destination[..], offset);
    if rb.CanRead() < Wrap64(offset + FLOAT) {
      rb.stats := rb.stats.(underflows := Wrap64(rb.stats.underflows + 1));
      return Some(0);
    }
    done := rb.PeekAt(destination, 0, FLOAT, offset);
  }

  /** rb_peek_float. */
  method PeekFloat(rb: Rb, destination: array<byte>) returns (done: nat)
    requires rb.Valid() && destination != rb.buf && FLOAT <= destination.Length
    modifies rb`stats, destination
    ensures rb.Valid() && rb.Abs() == old(rb.Abs())
    ensures done == if 4 <= |rb.Queue()| then 4 else 0
    ensures destination[..] == rb.Queue()[..done] + old(destination[..])[done..]
    ensures rb.stats == if done > 0 then old(rb.stats).(peek := Wrap64(old(rb.stats).peek + FLOAT))
                        else old(rb.stats).(underflows := Wrap64(old(rb.stats).underflows + 1))
  {
    PeekedFloat(rb.Abs(), destination[..], 0);
    if rb.CanRead() < FLOAT {
      rb.stats := rb.stats.(underflows := Wrap64(rb.stats.underflows + 1));
      return 0;
    }
    var peeked := rb.PeekAt(destination, 0, FLOAT, 0);
    return peeked.value;
  }

  method SkipFloat(rb: Rb) returns (done: nat)
    requires rb.Valid()
    modifies rb
    ensures rb.Valid()
    ensures done == if 4 <= |old(rb.Queue())| then 4 else 0
    ensures rb.Abs() == old(rb.Abs()).Take(done)
    ensures rb.stats == if done > 0 then old(rb.stats).(read := Wrap64(old(rb.stats).read + FLOAT))
                        else old(rb.stats).(underflows := Wrap64(old(rb.stats).underflows + 1))
    ensures old(Aligned(rb.Abs())) && done > 0 ==>
              Aligned(rb.Abs()) && Floats(rb.Queue()) == Floats(old(rb.Queue()))[1..]
  {
    ghost var view := rb.Abs();
    if rb.CanRead() < FLOAT {
      NoBytesNoChange(view);
      rb.stats := rb.stats.(underflows := Wrap64(rb.stats.underflows + 1));
      return 0;
    }
    FirstFloat(view);
    done := rb.GenericAdvanceReadIndex(FLOAT, false);
  }

  method WriteFloat(rb: Rb, source: seq<byte>) returns (done: nat)
    requires rb.Valid() && |source| == FLOAT
    modifies rb, rb.buf
    ensures rb.Valid()
    ensures done == if 4 <= old(rb.CanWrite()) then 4 else 0
    ensures rb.Abs() == old(rb.Abs()).Put(source[..done])
    ensures rb.stats == if done > 0 then old(rb.stats).(write := Wrap64(old(rb.stats).write + FLOAT))
                        else old(rb.stats).(overflows := Wrap64(old(rb.stats).overflows + 1))
    ensures old(Aligned(rb.Abs())) && done > 0 ==>
              Aligned(rb.Abs()) && Floats(rb.Queue()) == Floats(old(rb.Queue())) + [source]
  {
    ghost var view := rb.Abs();
    if rb.CanWrite() < FLOAT {
      NoBytesNoChange(view);
      rb.stats := rb.stats.(overflows := Wrap64(rb.stats.overflows + 1));
      return 0;
    }
    PutAppends(view, source);
    assert source[..FLOAT] == source;
    if Aligned(view) {
      OneFloat(source);
      FloatsAppend(view.Queue(), source);
    }
    done := rb.Write(source);
  }
}
