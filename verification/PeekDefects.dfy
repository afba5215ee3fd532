/**
 Short runs on a new buffer of four bytes in which rb_peek_at leaves a stale byte or copies
 out of bounds, in which the search and the deinterleaving that use it go wrong, and in which
 an over-read upsets the byte totals.
 */
module PeekDefects {
  import opened MachineInt
  import opened Options
  import opened Cyclic
  import opened ByteQueue
  import opened RingBuffer
  import opened Search
  import D = Deinterleave
  import R = RbRuns

  /** Fill a new buffer, read the front of that and write other bytes behind the rest. */
  method FillReadWrite(gone: seq<byte>, kept: seq<byte>, more: seq<byte>) returns (rb: Rb)
    requires |gone| + |kept| == 4 && |more| <= |gone| < 4
    ensures fresh(rb) && fresh(rb.buf) && rb.Valid() && rb.buf.Length == 4
    ensures rb.Abs() == View(|gone|, |kept| + |more|, kept + more + gone[|more|..])
  {
    rb := FillNew(gone + kept);
    var destination := new byte[4];
    var _ := rb.GenericRead(destination, 0, |gone|, false);
    assert rb.Abs() == View(|gone|, |kept|, kept + gone);
    WriteBehind(rb, |gone|, kept, gone, more);
  }

  method FillNew(all: seq<byte>) returns (rb: Rb)
    requires |all| == 4
    ensures fresh(rb) && fresh(rb.buf) && rb.Valid() && rb.buf.Length == 4 && rb.Abs() == View(0, 4, all)
  {
    rb := new Rb(4);
    var n := rb.Write(all);
    assert all[..n] == all;
  }

  method WriteBehind(rb: Rb, r: nat, kept: seq<byte>, free: seq<byte>, more: seq<byte>)
    requires rb.Valid() && rb.buf.Length == 4 && |more| <= |free| && rb.Abs() == View(r, |kept|, kept + free)
    modifies rb, rb.buf
    ensures rb.Valid() && rb.Abs() == View(r, |kept| + |more|, kept + more + free[|more|..])
  {
    var n := rb.Write(more);
    assert more[..n] == more;
  }

  /** Two of three readable bytes are announced at offset 1, but the second one is what was there before. */
  method StalePeek(stale: byte) returns (ghost queue: seq<byte>, result: Option<nat>, destination: array<byte>)
    ensures fresh(destination)
    ensures queue == [1, 2, 3] && result == Some(2) && destination[..] == [2, stale]
  {
    var rb := FillReadWrite([5, 6], [1, 2], [3]);
    destination := new byte[2](_ => stale);
    queue := rb.Queue();
    assert rb.Abs().ring == [1, 2, 3, 6] && queue == [1, 2, 3];
    assert rb.Abs().PeekSplits(2, 1) && rb.Abs().Peeked(2, 1) == [2];
    result := rb.PeekAt(destination, 0, 2, 1);
  }

  /** Two bytes at offset 2 of a full buffer: the second copy would leave the buffer. */
  method OverrunningPeek() returns (ghost queue: seq<byte>, result: Option<nat>)
    ensures queue == [1, 2, 3, 4] && result == None
  {
    var rb := FillReadWrite([5], [1, 2, 3], [4]);
    var destination := new byte[2];
    queue := rb.Queue();
    assert rb.Abs().ring == [1, 2, 3, 4] && rb.Abs().PeekOverruns(2, 2);
    result := rb.PeekAt(destination, 0, 2, 2);
  }

  /** The loop on that queue: nothing to compare at offset 0, a stale comparison at 1, nothing left at 2. */
  lemma StaleScan(v: View, stale: byte)
    requires v == View(2, 3, [1, 2, 3, 6]) && stale != 3
    ensures Scan(v, [2, 3], [stale, stale], 0) == Missing
  {
    var q := v.Queue();
    assert q[0] == 1 && q[1] == 2 && q[2] == 3;
    assert v.PeekSplits(2, 1) && v.Peeked(2, 1) == [2];
    assert Patch([stale, stale], 0, [2]) == [2, stale];
    assert Scan(v, [2, 3], [2, stale], 2) == Missing;
    assert Scan(v, [2, 3], [stale, stale], 1) == Missing;
  }

  /** A pattern that is there is not found, unless its last byte already is in the compare buffer. */
  method MissingSearch(stale: byte) returns (ghost queue: seq<byte>, pattern: seq<byte>, outcome: Outcome)
    requires stale != 3
    ensures queue == [1, 2, 3] && OccursAt(queue, pattern, 1) && outcome == Missing
  {
    var rb := FillReadWrite([5, 6], [1, 2], [3]);
    var compareBuffer := new byte[2](_ => stale);
    pattern := [2, 3];
    ghost var v := rb.Abs();
    queue := v.Queue();
    assert v.ring == [1, 2, 3, 6] && queue == [1, 2, 3];
    assert OccursAt(queue, pattern, 1) by { assert queue[1..3] == pattern; }
    assert compareBuffer[..] == [stale, stale] && pattern[0..2] == pattern;
    StaleScan(v, stale);
    outcome := FindByteSequence(rb, pattern, 0, 2, compareBuffer);
  }

  /** A search that comes to a window of a full buffer copies out of bounds. */
  method OverrunningSearch() returns (ghost queue: seq<byte>, pattern: seq<byte>, outcome: Outcome)
    ensures queue == [1, 2, 3, 4] && OccursAt(queue, pattern, 2) && outcome == Overrun
  {
    var rb := FillReadWrite([5], [1, 2, 3], [4]);
    var compareBuffer := new byte[2];
    pattern := [3, 4];
    ghost var v := rb.Abs();
    queue := v.Queue();
    assert v.ring == [1, 2, 3, 4] && queue == [1, 2, 3, 4] && queue[2..4] == pattern;
    assert v.PeekOverruns(2, 2);
    assert pattern[0..2] == pattern;
    ScanSkips(v, pattern, compareBuffer[..], 0, 2);
    outcome := FindByteSequence(rb, pattern, 0, 2, compareBuffer);
  }

  /** Two items of two bytes, all readable: the second one straddles the end, and its copy would leave the buffer. */
  method OverrunningDeinterleave() returns (ghost queue: seq<byte>, result: Option<nat>)
    ensures queue == [1, 2, 3, 4] && result == None
  {
    var rb := FillReadWrite([5], [1, 2, 3], [4]);
    var destination := new byte[4];
    ghost var v := rb.Abs();
    queue := v.Queue();
    assert v.ring == [1, 2, 3, 4] && queue == [1, 2, 3, 4];
    assert D.Needed(2, 1, 0, 2) == 4 == D.Limit(2, 1, 0, 2) && D.Pos(2, 0) == 0;
    LoopOverruns(v, destination[..]);
    result := D.DeinterleaveItems(rb, destination, 2, 2, 0, 1);
  }

  lemma LoopOverruns(v: View, dest: seq<byte>)
    requires v == View(1, 4, [1, 2, 3, 4]) && |dest| == 4
    ensures D.Loop(v, 2, 1, 0, 4, 0, dest) == D.Overrun
  {
    assert D.RoundPos(2, 1, 0) == 0 && D.RoundPos(2, 1, 1) == 2;
    assert D.Pos(2, 0) == 0 && D.Pos(2, 1) == 2;
    D.LoopStep(v, 2, 1, 0, 4, 0, dest);
    assert v.PeekOverruns(2, 2);
    D.LoopStep(v, 2, 1, 0, 4, 1, Patch(dest, 0, v.Peeked(2, 0)));
  }

  /** A byte that was never written counts as read. */
  method UnbalancingRead() returns (rb: Rb)
    ensures fresh(rb) && rb.Valid() && rb.CanRead() == 0
    ensures rb.stats.write == 0 && rb.stats.read == 1 && !R.Balanced(rb)
  {
    rb := new Rb(4);
    var destination := new byte[1];
    var _ := rb.GenericRead(destination, 0, 1, true);
  }
}
