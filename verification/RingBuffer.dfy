/**
 The ring buffer of rb.h: the full capacity is usable, and last_was_write tells a
 full buffer from an empty one when both indices meet. Each call is atomic.
 */
module RingBuffer {
  import opened MachineInt
  import opened Cyclic
  import opened ByteQueue
  import opened Options

  /** Counters that never influence what the buffer does; they wrap at 2^64. */
  datatype Stats = Stats(read: nat, write: nat, peek: nat, underflows: nat, overflows: nat)

  const NO_STATS := Stats(0, 0, 0, 0, 0)

  /** Index arithmetic adds up to three sizes, which must fit 64 bits. */
  const MAX_SIZE: nat := TWO_TO_64 / 4

  /** The counter after an optional increment. */
  function Bump(counter: nat, happened: bool): nat {
    if happened then Wrap64(counter + 1) else counter
  }

  /** Calls that only look at the buffer count peeks and underflows, and nothing else. */
  predicate OnlyPeeked(before: Stats, after: Stats) {
    after.read == before.read && after.write == before.write && after.overflows == before.overflows
  }

  /** A stretch of the buffer handed out for direct access. */
  datatype Region = Region(start: nat, size: nat)

  class Rb {
    const buf: array<byte>
    var readIndex: nat
    var writeIndex: nat
    var lastWasWrite: bool
    var stats: Stats

    ghost predicate Valid()
      reads this
    {
      && 1 <= buf.Length <= MAX_SIZE
      && readIndex < buf.Length && writeIndex < buf.Length
    }

    /** The abstract value of the buffer. */
    ghost function Abs(): (v: View)
      requires Valid()
      reads this, buf
      ensures v.Ok() && v.Size() == buf.Length
    {
      View(readIndex, CanRead(), Window(buf[..], readIndex))
    }

    ghost function Queue(): seq<byte>
      requires Valid()
      reads this, buf
    {
      Abs().Queue()
    }

    constructor (size: nat)
      requires 1 <= size <= MAX_SIZE
      ensures Valid() && fresh(buf) && buf.Length == size
      ensures Abs().n == 0 && Abs().r == 0 && stats == Stats(0, 0, 0, 0, 0)
    {
      buf := new byte[size];
      readIndex, writeIndex, lastWasWrite := 0, 0, false;
      stats := NO_STATS;
    }

    /** The only count that leads from the read to the write index and agrees with the flag when they meet. */
    function CanRead(): (n: nat)
      requires Valid()
      reads this
      ensures n <= buf.Length && Around(readIndex + n, buf.Length) == writeIndex
      ensures readIndex == writeIndex ==> (n == buf.Length <==> lastWasWrite)
    {
      if readIndex == writeIndex then
        if lastWasWrite then buf.Length else 0
      else if readIndex < writeIndex then writeIndex - readIndex
      else writeIndex + buf.Length - readIndex
    }

    /** Readable and writable space always add up to the size. */
    function CanWrite(): (n: nat)
      requires Valid()
      reads this
      ensures CanRead() + n == buf.Length
    {
      if readIndex == writeIndex then
        if lastWasWrite then 0 else buf.Length
      else if readIndex < writeIndex then buf.Length - writeIndex + readIndex
      else readIndex - writeIndex
    }

    method ResetStats()
      requires Valid()
      modifies this`stats
      ensures Valid() && stats == Stats(0, 0, 0, 0, 0)
    {
      stats := NO_STATS;
    }

    method Reset()
      requires Valid()
      modifies this
      ensures Valid() && stats == Stats(0, 0, 0, 0, 0)
      ensures Abs() == old(Abs()).Restart()
    {
      ghost var r := readIndex;
      ghost var n := buf.Length;
      readIndex := 0;
      writeIndex := 0;
      lastWasWrite := false;
      ResetStats();
      WindowCompose(buf[..], r, Around(n - r, n));
    }

    /** rb_generic_read; over selects rb_overread. */
    method GenericRead(destination: array<byte>, at: nat, count: nat, over: bool) returns (done: nat)
      requires Valid() && destination != buf
      requires at + Min(count, if over then buf.Length else CanRead()) <= destination.Length
      modifies this, destination
      ensures Valid()
      ensures done == Min(count, if over then buf.Length else old(CanRead()))
      ensures destination[..] == Patch(old(destination[..]), at, old(Abs()).ring[..done])
      ensures Abs() == old(Abs()).Take(done)
      ensures lastWasWrite == (done == 0 && old(lastWasWrite))
      ensures stats == if done == 0 then old(stats) else
                         old(stats).(read := Wrap64(old(stats).read + done),
                                     underflows := Bump(old(stats).underflows, done < count))
    {
      PatchNothing(destination[..], at);
      NoBytesNoChange(Abs());
      if count == 0 { return 0; }
      var canReadCount := CanRead();
      if over {
        done := Min(buf.Length, count);
      } else {
        if canReadCount == 0 { return 0; }
        done := if count > canReadCount then canReadCount else count;
      }
      TransferOut(destination, at, done, over && canReadCount < done);
      stats := stats.(read := Wrap64(stats.read + done), underflows := Bump(stats.underflows, done < count));
    }

    /** The copying part of rb_generic_read. */
    method TransferOut(destination: array<byte>, at: nat, done: nat, overpassed: bool)
      requires Valid() && destination != buf
      requires 0 < done <= buf.Length && at + done <= destination.Length
      requires overpassed <==> CanRead() < done
      modifies this`readIndex, this`writeIndex, this`lastWasWrite, destination
      ensures Valid()
      ensures destination[..] == Patch(old(destination[..]), at, old(Abs()).ring[..done])
      ensures Abs() == old(Abs()).Take(done) && !lastWasWrite
    {
      var linearEnd := readIndex + done;
      var copyCount1 := if linearEnd > buf.Length then buf.Length - readIndex else done;
      var copyCount2 := if linearEnd > buf.Length then linearEnd - buf.Length else 0;
      CopyFront(destination, at, done, copyCount1, copyCount2);
      MoveReadIndex(if copyCount2 == 0 then readIndex + copyCount1 else copyCount2, done, overpassed);
    }

    /** The one or two parts of a transfer from the read index are the front of the window. */
    method CopyFront(destination: array<byte>, at: nat, ghost done: nat, count1: nat, count2: nat)
      requires Valid() && destination != buf
      requires done == count1 + count2 <= buf.Length && at + done <= destination.Length
      requires if readIndex + done > buf.Length then count1 == buf.Length - readIndex else count2 == 0
      modifies destination
      ensures Valid() && Abs() == old(Abs())
      ensures destination[..] == Patch(old(destination[..]), at, old(Abs()).ring[..done])
    {
      ghost var before := buf[..];
      PartsAreWindow(done, count1, count2);
      CopyOut(destination, at, readIndex, count1, count2);
      assert buf[..] == before;
    }

    lemma PartsAreWindow(done: nat, count1: nat, count2: nat)
      requires Valid() && done == count1 + count2 <= buf.Length
      requires if readIndex + done > buf.Length then count1 == buf.Length - readIndex else count2 == 0
      ensures buf[readIndex..readIndex + count1] + buf[..count2] == Abs().ring[..done]
    {
      WindowPrefix(buf[..], readIndex, done);
    }

    /** The two memcpy calls of a read or peek. */
    method CopyOut(destination: array<byte>, at: nat, start: nat, count1: nat, count2: nat)
      requires destination != buf
      requires start + count1 <= buf.Length && count2 <= buf.Length
      requires at + count1 + count2 <= destination.Length
      modifies destination
      ensures destination[..] == Patch(old(destination[..]), at, buf[start..start + count1] + buf[..count2])
    {
      Memcpy(destination, at, buf[start..start + count1]);
      if count2 != 0 {
        Memcpy(destination, at + count1, buf[..count2]);
      }
    }

    /** Store the read index; a read past the write index pulls that one along. */
    method MoveReadIndex(linear: nat, ghost done: nat, overpassed: bool)
      requires Valid() && done <= buf.Length && 0 < done
      requires linear == readIndex + done || linear == readIndex + done - buf.Length
      requires linear <= buf.Length
      requires overpassed <==> CanRead() < done
      modifies this`readIndex, this`writeIndex, this`lastWasWrite
      ensures Valid()
      ensures Abs() == old(Abs()).Take(done) && !lastWasWrite
    {
      WindowRotates(buf[..], readIndex, done);
      ModIsAround(linear, buf.Length);
      readIndex := linear % buf.Length;
      if overpassed {
        writeIndex := readIndex;
      }
      lastWasWrite := false;
    }

    /** rb_write; the source takes count bytes from its argument, which here is all of it. */
    method Write(source: seq<byte>) returns (done: nat)
      requires Valid()
      modifies this, buf
      ensures Valid()
      ensures done == Min(|source|, old(CanWrite()))
      ensures Abs() == old(Abs()).Put(source[..done])
      ensures lastWasWrite == (done > 0 || old(lastWasWrite))
      ensures stats == if done == 0 then old(stats) else
                         old(stats).(write := Wrap64(old(stats).write + done),
                                     overflows := Bump(old(stats).overflows, done < |source|))
    {
      NoBytesNoChange(Abs());
      var count := |source|;
      if count == 0 { return 0; }
      var canWriteCount := CanWrite();
      if canWriteCount == 0 { return 0; }
      done := if count > canWriteCount then canWriteCount else count;
      TransferIn(source[..done]);
      stats := stats.(write := Wrap64(stats.write + done), overflows := Bump(stats.overflows, done < count));
    }

    /** The copying part of rb_write. */
    method TransferIn(data: seq<byte>)
      requires Valid() && 0 < |data| <= CanWrite()
      modifies this`writeIndex, this`lastWasWrite, buf
      ensures Valid()
      ensures Abs() == old(Abs()).Put(data) && lastWasWrite
    {
      var linearEnd := writeIndex + |data|;
      Fill(data);
      StoreWriteIndex(if linearEnd > buf.Length then linearEnd - buf.Length else linearEnd, |data|);
    }

    /** Bytes copied behind the queue are not readable yet. */
    method Fill(data: seq<byte>)
      requires Valid() && |data| <= CanWrite()
      modifies buf
      ensures Valid() && Abs() == old(Abs()).Put(data).(n := old(Abs()).n)
    {
      ghost var after := PatchCyclic(buf[..], writeIndex, data);
      WriteIndexFollows();
      PatchedView(buf[..], readIndex, CanRead(), writeIndex, data);
      CopyIn(data);
      assert buf[..] == after;
    }

    /** The two memcpy calls of rb_write. */
    method CopyIn(data: seq<byte>)
      requires Valid() && |data| <= buf.Length
      modifies buf
      ensures buf[..] == PatchCyclic(old(buf[..]), writeIndex, data)
    {
      ghost var before := buf[..];
      if writeIndex + |data| > buf.Length {
        var copyCount1 := buf.Length - writeIndex;
        Memcpy(buf, writeIndex, data[..copyCount1]);
        assert buf[..] == Patch(before, writeIndex, data[..copyCount1]);
        Memcpy(buf, 0, data[copyCount1..]);
      } else {
        Memcpy(buf, writeIndex, data);
      }
    }

    /** Store the write index after the queue has grown by done bytes. */
    method StoreWriteIndex(linear: nat, ghost done: nat)
      requires Valid() && 0 < done <= CanWrite()
      requires linear == writeIndex + done || linear == writeIndex + done - buf.Length
      requires linear <= buf.Length
      modifies this`writeIndex, this`lastWasWrite
      ensures Valid()
      ensures Abs() == old(Abs()).(n := old(Abs()).n + done) && lastWasWrite
    {
      ModIsAround(linear, buf.Length);
      writeIndex := linear % buf.Length;
      lastWasWrite := true;
    }

    /** The write index is the slot behind the last readable byte. */
    lemma WriteIndexFollows()
      requires Valid()
      ensures writeIndex == Around(readIndex + CanRead(), buf.Length)
    {
    }

    /** rb_generic_advance_read_index; over selects rb_overadvance_read_index. */
    method GenericAdvanceReadIndex(count: nat, over: bool) returns (done: nat)
      requires Valid()
      modifies this
      ensures Valid()
      ensures done == Min(count, if over then buf.Length else old(CanRead()))
      ensures Abs() == old(Abs()).Take(done)
      ensures lastWasWrite == (done == 0 && old(lastWasWrite))
      ensures stats == if count == 0 then old(stats) else
                         old(stats).(read := if done == 0 then old(stats).read else Wrap64(old(stats).read + done),
                                     underflows := Bump(old(stats).underflows, done < count))
    {
      NoBytesNoChange(Abs());
      if count == 0 { return 0; }
      var canReadCount := CanRead();
      if over {
        done := Min(buf.Length, count);
      } else {
        if canReadCount == 0 {
          stats := stats.(underflows := Wrap64(stats.underflows + 1));
          return 0;
        }
        done := if count > canReadCount then canReadCount else count;
      }
      StepReadIndex(done, over && canReadCount < done);
      stats := stats.(read := Wrap64(stats.read + done), underflows := Bump(stats.underflows, done < count));
    }

    method StepReadIndex(done: nat, overpassed: bool)
      requires Valid() && 0 < done <= buf.Length && (overpassed <==> CanRead() < done)
      modifies this`readIndex, this`writeIndex, this`lastWasWrite
      ensures Valid()
      ensures Abs() == old(Abs()).Take(done) && !lastWasWrite
    {
      var linearEnd := readIndex + done;
      var linear := if linearEnd > buf.Length then linearEnd - buf.Length else linearEnd;
      MoveReadIndex(linear, done, overpassed);
    }

    /** rb_drop. */
    method Drop() returns (done: nat)
      requires Valid()
      modifies this
      ensures Valid()
      ensures done == old(CanRead())
      ensures Abs() == old(Abs()).Take(done) && Queue() == []
      ensures lastWasWrite == (done == 0 && old(lastWasWrite))
      ensures stats == if done == 0 then old(stats) else old(stats).(read := Wrap64(old(stats).read + done))
    {
      done := GenericAdvanceReadIndex(CanRead(), false);
    }

    /** rb_advance_write_index: whatever bytes lie behind the queue become readable. */
    method AdvanceWriteIndex(count: nat) returns (done: nat)
      requires Valid()
      modifies this
      ensures Valid()
      ensures done == Min(count, old(CanWrite()))
      ensures Abs() == old(Abs()).(n := old(Abs()).n + done)
      ensures lastWasWrite == (done > 0 || old(lastWasWrite))
      ensures stats == if count == 0 then old(stats) else
                         old(stats).(write := if done == 0 then old(stats).write else Wrap64(old(stats).write + done),
                                     overflows := Bump(old(stats).overflows, done < count))
    {
      if count == 0 { return 0; }
      var canWriteCount := CanWrite();
      if canWriteCount == 0 {
        stats := stats.(overflows := Wrap64(stats.overflows + 1));
        return 0;
      }
      done := if count > canWriteCount then canWriteCount else count;
      var linearEnd := writeIndex + done;
      StoreWriteIndex(if linearEnd > buf.Length then linearEnd - buf.Length else linearEnd, done);
      stats := stats.(write := Wrap64(stats.write + done), overflows := Bump(stats.overflows, done < count));
    }

    /**
     rb_peek_at, with the length of the second part as the source computes it. Where that
     length has wrapped, the second copy would run out of bounds; the result is then None.
     */
    method PeekAt(destination: array<byte>, at: nat, count: nat, offset: nat) returns (result: Option<nat>)
      requires Valid() && destination != buf
      requires at + Abs().PeekCount(count, offset) <= destination.Length
      modifies this`stats, destination
      ensures Valid() && Abs() == old(Abs())
      ensures result == if Abs().PeekOverruns(count, offset) then None else Some(Abs().PeekCount(count, offset))
      ensures result.Some? ==>
                && destination[..] == Patch(old(destination[..]), at, Abs().Peeked(count, offset))
                && stats.(peek := 0) == old(stats).(peek := 0,
                    underflows := Bump(old(stats).underflows, result.value < count))
                && stats.peek == if result.value == 0 then old(stats).peek else Wrap64(old(stats).peek + result.value)
      ensures result.None? ==> stats == old(stats)
    {
      PatchNothing(destination[..], at);
      if count == 0 { return Some(0); }
      var canReadCount := CanRead();
      if canReadCount <= offset {
        stats := stats.(underflows := Wrap64(stats.underflows + 1));
        return Some(0);
      }
      var done := if count > canReadCount - offset then canReadCount - offset else count;
      ghost var before := buf[..];
      var inBounds := CopyPeeked(destination, at, done, count, offset);
      assert buf[..] == before;
      if !inBounds { return None; }
      stats := stats.(peek := Wrap64(stats.peek + done), underflows := Bump(stats.underflows, done < count));
      return Some(done);
    }

    /** The copying part of rb_peek_at, up to a copy that would leave the buffer. */
    method CopyPeeked(destination: array<byte>, at: nat, done: nat, ghost count: nat, offset: nat)
      returns (inBounds: bool)
      requires Valid() && destination != buf && count > 0 && offset < CanRead()
      requires done == Abs().PeekCount(count, offset)
      requires at + done <= destination.Length
      modifies destination
      ensures inBounds == !old(Abs()).PeekOverruns(count, offset)
      ensures inBounds ==> destination[..] == Patch(old(destination[..]), at, old(Abs()).Peeked(count, offset))
    {
      var tmpReadIndex := readIndex + offset;
      var linearEnd := tmpReadIndex + done;
      var copyCount1, copyCount2 := done, 0;
      if linearEnd > buf.Length {
        if tmpReadIndex >= buf.Length {
          ModIsAround(tmpReadIndex, buf.Length);
          tmpReadIndex := tmpReadIndex % buf.Length;
        } else {
          copyCount1 := buf.Length - tmpReadIndex;
          copyCount2 := Wrap64(linearEnd - buf.Length - offset);
          if copyCount2 > buf.Length { return false; }
        }
      }
      PeekedParts(count, offset, done, copyCount1, copyCount2, tmpReadIndex);
      CopyOut(destination, at, tmpReadIndex, copyCount1, copyCount2);
      return true;
    }

    /** The one or two parts of a peek hold the peeked bytes, short as they may be. */
    lemma PeekedParts(count: nat, offset: nat, done: nat, count1: nat, count2: nat, start: nat)
      requires Valid() && count > 0 && offset < CanRead() && !Abs().PeekOverruns(count, offset)
      requires done == Abs().PeekCount(count, offset)
      requires start == Around(readIndex + offset, buf.Length)
      requires if readIndex + offset < buf.Length < readIndex + offset + done
               then count1 == buf.Length - start && count2 == start + done - buf.Length - offset
               else count1 == done && count2 == 0
      ensures start + count1 <= buf.Length && count2 <= buf.Length && count1 + count2 <= done
      ensures buf[start..start + count1] + buf[..count2] == Abs().Peeked(count, offset)
    {
      PeekedInMemory(Abs(), buf[..], count, offset, start, count1, count2);
      assert buf[..][start..start + count1] == buf[start..start + count1];
      assert buf[..][..count2] == buf[..count2];
    }

    /** rb_peek_byte_at. */
    method PeekByteAt(offset: nat) returns (c: Option<byte>)
      requires Valid()
      modifies this`stats
      ensures Valid() && Abs() == old(Abs())
      ensures c == if offset < |Queue()| then Some(Queue()[offset]) else None
      ensures stats == if c.Some? then old(stats).(peek := Wrap64(old(stats).peek + 1))
                       else old(stats).(underflows := Wrap64(old(stats).underflows + 1))
    {
      if CanRead() <= offset {
        stats := stats.(underflows := Wrap64(stats.underflows + 1));
        return None;
      }
      var tmpReadIndex := readIndex + offset;
      c := Some(if buf.Length <= tmpReadIndex then buf[tmpReadIndex - buf.Length] else buf[tmpReadIndex]);
      stats := stats.(peek := Wrap64(stats.peek + 1));
    }
  }
}
