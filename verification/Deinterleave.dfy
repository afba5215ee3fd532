/**
 rb_deinterleave_items: picking one channel out of interleaved items without consuming
 them, and why the channels together are the interleaved data again.
 */
module Deinterleave {
  import opened MachineInt
  import opened Options
  import opened Cyclic
  import opened ByteQueue
  import opened RingBuffer

  /** Byte position of item k. */
  function Pos(s: nat, k: nat): nat {
    k * s
  }

  lemma PosNext(s: nat, k: nat)
    ensures Pos(s, k + 1) == Pos(s, k) + s
  {
  }

  lemma PosMonotone(s: nat, j: nat, k: nat)
    requires j <= k
    ensures Pos(s, j) <= Pos(s, k)
  {
    assert Pos(s, k) == Pos(s, j) + (k - j) * s;
  }

  /** Item k of a sequence of s-byte items. */
  function Item(q: seq<byte>, s: nat, k: nat): (item: seq<byte>)
    requires Pos(s, k) + s <= |q|
    ensures |item| == s
  {
    q[Pos(s, k)..Pos(s, k) + s]
  }

  /** The first n items of channel o, where a frame holds one item of each of the block's channels. */
  function Channel(q: seq<byte>, s: nat, block: nat, o: nat, n: nat): (c: seq<byte>)
    requires n > 0 ==> Pos(s, o + (n - 1) * block) + s <= |q|
    ensures |c| == Pos(s, n)
    decreases n
  {
    if n == 0 then [] else
    PosMonotone(s, o + (n - 1) * block - (if n == 1 then 0 else block), o + (n - 1) * block);
    PosNext(s, n - 1);
    Channel(q, s, block, o, n - 1) + Item(q, s, o + (n - 1) * block)
  }

  /** The bytes the source wants to see before it starts. */
  function Needed(s: nat, block: nat, o: nat, n: nat): nat
    requires n > 0
  {
    Pos(s, o + (n - 1) * block) + s
  }

  /** No item after the first byte of the queue straddles the physical end of the buffer. */
  ghost predicate Unsplit(v: View, s: nat, block: nat, o: nat, n: nat) {
    forall j: nat :: j < n ==> o + j * block == 0 || !v.PeekSplits(s, Pos(s, o + j * block))
  }

  /** Whole items in a buffer that holds a whole number of them never straddle its end. */
  lemma AlignedIsUnsplit(v: View, s: nat, k: nat)
    requires v.Ok() && s > 0 && v.Size() % s == 0 && v.r % s == 0
    ensures !v.PeekSplits(s, Pos(s, k))
  {
    var a, c := v.r / s, v.Size() / s;
    assert v.r == Pos(s, a) && v.Size() == Pos(s, c);
    assert Pos(s, a) + Pos(s, k) == Pos(s, a + k);
    PosNext(s, a + k);
    if a + k < c {
      PosMonotone(s, a + k + 1, c);
    } else {
      PosMonotone(s, c, a + k);
    }
  }

  /** The loop variable bytepos at the start of round j. */
  function RoundPos(s: nat, block: nat, j: nat): nat {
    j * (s * block)
  }

  lemma RoundPosNext(s: nat, block: nat, j: nat)
    ensures RoundPos(s, block, 0) == 0
    ensures RoundPos(s, block, j + 1) == RoundPos(s, block, j) + s * block
  {
  }

  /**
   The loop advances by a whole frame and stops at the end of the last wanted item, or
   one channel offset later: it makes n rounds if and only if the channel is in the block.
   */
  lemma RoundCount(s: nat, block: nat, o: nat, n: nat, j: nat)
    requires s > 0 && n > 0 && j <= n
    ensures o < block ==> (RoundPos(s, block, j) < Needed(s, block, o, n) <==> j < n)
    ensures o >= block ==> RoundPos(s, block, j) < Needed(s, block, o, n)
  {
    NeededSplit(s, block, o, n);
    if o < block {
      PosMonotone(s, o + 1, block);
      PosNext(s, o);
    } else {
      PosMonotone(s, block, o);
    }
    RoundsOf(s * block, o * s, s, n, j);
  }

  lemma NeededSplit(s: nat, block: nat, o: nat, n: nat)
    requires n > 0
    ensures Needed(s, block, o, n) == o * s + (n - 1) * (s * block) + s
  {
    assert (o + (n - 1) * block) * s == o * s + ((n - 1) * block) * s;
    assert ((n - 1) * block) * s == (n - 1) * (s * block);
  }

  lemma RoundsOf(step: nat, first: nat, s: nat, n: nat, j: nat)
    requires s > 0 && n > 0 && j <= n
    ensures first + s <= step ==> (j * step < first + (n - 1) * step + s <==> j < n)
    ensures first >= step ==> j * step < first + (n - 1) * step + s
  {
    if j < n {
      PosMonotone(step, j, n - 1);
    } else {
      PosNext(step, n - 1);
    }
  }

  /** What the source compares with; below zero it wraps to more than any buffer can hold. */
  function Limit(s: nat, block: nat, o: nat, n: nat): int {
    if n == 0 then (o + 1 - block) * s else Needed(s, block, o, n)
  }

  /** The loop's variables stay below 2^64 when the request and one more frame do. */
  predicate Fits(s: nat, block: nat, o: nat, n: nat) {
    if n == 0 then Pos(s, o) + s + s * block < TWO_TO_64 - MAX_SIZE
    else Pos(s, o) + Needed(s, block, o, n) + s * block < TWO_TO_64
  }

  /** The size computations of the source, wrapping as they may on the way. */
  lemma LimitComputed(s: nat, block: nat, o: nat, n: nat)
    ensures Wrap64(Wrap64(o * s) + Wrap64(Wrap64(Wrap64(Wrap64(n - 1) * s) * block) + s))
            == Wrap64(Limit(s, block, o, n))
  {
    var stretch := (n - 1) * s;
    WrapTimes(n - 1, s);
    WrapTimes(stretch, block);
    WrapPlus(stretch * block, s);
    WrapPlus(o * s, Wrap64(stretch * block + s));
    WrapPlus(stretch * block + s, o * s);
    LimitIs(s, block, o, n);
  }

  lemma LimitIs(s: nat, block: nat, o: nat, n: nat)
    ensures Limit(s, block, o, n) == o * s + ((n - 1) * s * block + s)
  {
    if n == 0 {
      assert (o + 1 - block) * s == o * s + s - block * s;
      assert -1 * s * block == -(block * s);
    } else {
      assert (o + (n - 1) * block) * s == o * s + ((n - 1) * block) * s;
      assert ((n - 1) * block) * s == (n - 1) * s * block;
    }
  }

  /** Where the request fits, the limit is as computed, or none of the readable counts reaches it. */
  lemma LimitFits(s: nat, block: nat, o: nat, n: nat)
    requires s > 0 && block > 0 && Fits(s, block, o, n)
    ensures Wrap64(o * s) == Pos(s, o)
    ensures Limit(s, block, o, n) >= 0 ==> Wrap64(Limit(s, block, o, n)) == Limit(s, block, o, n)
    ensures Limit(s, block, o, n) < 0 ==> Wrap64(Limit(s, block, o, n)) > MAX_SIZE
    ensures n == 0 && o < block ==> Limit(s, block, o, n) <= 0
  {
    LimitIs(s, block, o, n);
    if n == 0 {
      assert -1 * s * block == -(s * block);
      if o < block { PosMonotone(s, o + 1, block); PosNext(s, o); }
    }
  }

  /** Where the item of round j lies in the queue. */
  lemma RoundPosition(s: nat, block: nat, o: nat, j: nat)
    ensures Pos(s, o) + RoundPos(s, block, j) == Pos(s, o + j * block)
  {
    assert (o + j * block) * s == o * s + (j * block) * s;
    assert (j * block) * s == j * (s * block);
  }

  lemma PositionNeeded(s: nat, block: nat, o: nat, n: nat, j: nat)
    requires j < n
    ensures Pos(s, o + j * block) + s <= Needed(s, block, o, n)
  {
    PosMonotone(block, j, n - 1);
    PosMonotone(s, o + j * block, o + (n - 1) * block);
  }

  // The loop

  /** How the loop ends; Overrun is a copy out of the bounds of the buffer or of the destination. */
  datatype Outcome = Overrun | Filled(destination: seq<byte>)

  /** One peek of count bytes at offset into the destination from position to on. */
  function PeekInto(v: View, count: nat, offset: nat, dest: seq<byte>, to: nat): Outcome
    requires v.Ok()
  {
    if v.PeekOverruns(count, offset) then Overrun
    else if v.PeekCount(count, offset) == 0 then Filled(dest)
    else if to + v.PeekCount(count, offset) > |dest| then Overrun
    else Filled(Patch(dest, to, v.Peeked(count, offset)))
  }

  /** The loop from round j on, with limit as the value bytepos is compared with. */
  function Loop(v: View, s: nat, block: nat, first: nat, limit: nat, j: nat, dest: seq<byte>): Outcome
    requires v.Ok() && s > 0 && block > 0
    decreases limit - RoundPos(s, block, j)
  {
    if RoundPos(s, block, j) >= limit then Filled(dest)
    else
      var peeked := PeekInto(v, s, first + RoundPos(s, block, j), dest, Pos(s, j));
      if peeked.Overrun? then Overrun
      else
        RoundAdvances(s, block, j);
        Loop(v, s, block, first, limit, j + 1, peeked.destination)
  }

  lemma RoundAdvances(s: nat, block: nat, j: nat)
    requires s > 0 && block > 0
    ensures RoundPos(s, block, j + 1) > RoundPos(s, block, j)
  {
    RoundPosNext(s, block, j);
    PosMonotone(s, 1, block);
  }

  /** The two sums that rb_deinterleave_items starts with. */
  method Sizes(itemCount: nat, itemSize: nat, initialItemOffset: nat, itemBlockSize: nat)
    returns (initialBytepos: nat, limit: nat)
    requires itemSize > 0 && itemBlockSize > 0 && Fits(itemSize, itemBlockSize, initialItemOffset, itemCount)
    ensures initialBytepos == Pos(itemSize, initialItemOffset)
    ensures var exact := Limit(itemSize, itemBlockSize, initialItemOffset, itemCount);
            if exact >= 0 then limit == exact else limit > MAX_SIZE
    ensures itemCount == 0 && initialItemOffset < itemBlockSize ==> limit == 0 || limit > MAX_SIZE
  {
    LimitComputed(itemSize, itemBlockSize, initialItemOffset, itemCount);
    LimitFits(itemSize, itemBlockSize, initialItemOffset, itemCount);
    initialBytepos := Wrap64(initialItemOffset * itemSize);
    var concernedBlockSize := Wrap64(Wrap64(Wrap64(Wrap64(itemCount - 1) * itemSize) * itemBlockSize) + itemSize);
    limit := Wrap64(initialBytepos + concernedBlockSize);
  }

  /**
   rb_deinterleave_items. The result is None where a copy would leave the buffer or the
   destination, otherwise the returned byte count.
   */
  method DeinterleaveItems(rb: Rb, destination: array<byte>, itemCount: nat, itemSize: nat, initialItemOffset: nat,
      itemBlockSize: nat)
    returns (done: Option<nat>)
    requires rb.Valid() && destination != rb.buf
    requires itemSize > 0 && itemBlockSize > 0
    requires Fits(itemSize, itemBlockSize, initialItemOffset, itemCount)
    modifies rb`stats, destination
    ensures rb.Valid() && rb.Abs() == old(rb.Abs()) && OnlyPeeked(old(rb.stats), rb.stats)
    ensures 0 <= Limit(itemSize, itemBlockSize, initialItemOffset, itemCount) <= |rb.Queue()| ==>
              var loop := Loop(rb.Abs(), itemSize, itemBlockSize, Pos(itemSize, initialItemOffset),
                               Limit(itemSize, itemBlockSize, initialItemOffset, itemCount), 0, old(destination[..]));
              if loop.Overrun? then done == None
              else done == Some(Pos(itemSize, itemCount)) && destination[..] == loop.destination
    ensures !(0 <= Limit(itemSize, itemBlockSize, initialItemOffset, itemCount) <= |rb.Queue()|) ==>
              done == Some(0) && destination[..] == old(destination[..])
    ensures itemCount == 0 && initialItemOffset < itemBlockSize ==>
              done == Some(0) && destination[..] == old(destination[..])
  {
    var initialBytepos, limit := Sizes(itemCount, itemSize, initialItemOffset, itemBlockSize);
    ghost var exact := Limit(itemSize, itemBlockSize, initialItemOffset, itemCount);
    assert limit <= rb.CanRead() <==> 0 <= exact <= |rb.Queue()|;
    if rb.CanRead() < limit { return Some(0); }
    var inBounds := RunLoop(rb, destination, itemSize, itemBlockSize, initialBytepos, limit);
    return if inBounds then Some(Pos(itemSize, itemCount)) else None;
  }

  lemma NextPositions(s: nat, block: nat, j: nat)
    ensures Pos(s, j + 1) == Pos(s, j) + s && RoundPos(s, block, j + 1) == RoundPos(s, block, j) + s * block
  {
    RoundPosNext(s, block, j);
    PosNext(s, j);
  }

  /** One round, and where the loop goes on. */
  lemma LoopStep(v: View, s: nat, block: nat, first: nat, limit: nat, j: nat, dest: seq<byte>)
    requires v.Ok() && s > 0 && block > 0 && RoundPos(s, block, j) < limit
    ensures var peeked := PeekInto(v, s, first + RoundPos(s, block, j), dest, Pos(s, j));
            Loop(v, s, block, first, limit, j, dest) ==
              if peeked.Overrun? then Overrun else Loop(v, s, block, first, limit, j + 1, peeked.destination)
    ensures RoundPos(s, block, j) < RoundPos(s, block, j + 1)
  {
    RoundAdvances(s, block, j);
  }

  method OneRound(rb: Rb, destination: array<byte>, s: nat, ghost block: nat, initialBytepos: nat, ghost limit: nat,
                  ghost j: nat, bytepos: nat, destinationPos: nat) returns (ok: bool)
    requires rb.Valid() && destination != rb.buf && s > 0 && block > 0
    requires bytepos == RoundPos(s, block, j) < limit && destinationPos == Pos(s, j)
    modifies rb`stats, destination
    ensures rb.Valid() && rb.Abs() == old(rb.Abs()) && OnlyPeeked(old(rb.stats), rb.stats)
    ensures Loop(rb.Abs(), s, block, initialBytepos, limit, j, old(destination[..])) ==
            if ok then Loop(rb.Abs(), s, block, initialBytepos, limit, j + 1, destination[..]) else Overrun
    ensures bytepos < RoundPos(s, block, j + 1)
  {
    ghost var before := destination[..];
    ok := PeekItem(rb, destination, destinationPos, s, initialBytepos + bytepos);
    AfterRound(rb.Abs(), s, block, initialBytepos, limit, j, before, ok, destination[..]);
  }

  /** How the loop goes on, from what one peek has left. */
  lemma AfterRound(v: View, s: nat, block: nat, first: nat, limit: nat, j: nat, dest: seq<byte>, ok: bool,
      dest': seq<byte>)
    requires v.Ok() && s > 0 && block > 0 && RoundPos(s, block, j) < limit
    requires var peeked := PeekInto(v, s, first + RoundPos(s, block, j), dest, Pos(s, j));
             if peeked.Overrun? then !ok else ok && dest' == peeked.destination
    ensures Loop(v, s, block, first, limit, j, dest) ==
            if ok then Loop(v, s, block, first, limit, j + 1, dest') else Overrun
    ensures RoundPos(s, block, j) < RoundPos(s, block, j + 1)
  {
    LoopStep(v, s, block, first, limit, j, dest);
  }

  /** The loop of rb_deinterleave_items. */
  method RunLoop(rb: Rb, destination: array<byte>, s: nat, block: nat, initialBytepos: nat, limit: nat)
    returns (inBounds: bool)
    requires rb.Valid() && destination != rb.buf && s > 0 && block > 0
    modifies rb`stats, destination
    ensures rb.Valid() && rb.Abs() == old(rb.Abs()) && OnlyPeeked(old(rb.stats), rb.stats)
    ensures var loop := Loop(rb.Abs(), s, block, initialBytepos, limit, 0, old(destination[..]));
            if loop.Overrun? then !inBounds else inBounds && destination[..] == loop.destination
  {
    ghost var view := rb.Abs();
    ghost var goal := Loop(view, s, block, initialBytepos, limit, 0, destination[..]);
    RoundPosNext(s, block, 0);
    var destinationPos, bytepos := 0, 0;
    ghost var j := 0;
    while bytepos < limit
      invariant rb.Valid() && rb.Abs() == view && OnlyPeeked(old(rb.stats), rb.stats)
      invariant bytepos == RoundPos(s, block, j) && destinationPos == Pos(s, j)
      invariant goal == Loop(view, s, block, initialBytepos, limit, j, destination[..])
      decreases limit - bytepos
    {
      var ok := OneRound(rb, destination, s, block, initialBytepos, limit, j, bytepos, destinationPos);
      if !ok { return false; }
      NextPositions(s, block, j);
      destinationPos := destinationPos + s;
      bytepos := bytepos + s * block;
      j := j + 1;
    }
    return true;
  }

  /** One peek of the loop, up to a copy that would leave the buffer or the destination. */
  method PeekItem(rb: Rb, destination: array<byte>, destinationPos: nat, s: nat, offset: nat) returns (ok: bool)
    requires rb.Valid() && destination != rb.buf
    modifies rb`stats, destination
    ensures rb.Valid() && rb.Abs() == old(rb.Abs()) && OnlyPeeked(old(rb.stats), rb.stats)
    ensures var peeked := PeekInto(rb.Abs(), s, offset, old(destination[..]), destinationPos);
            if peeked.Overrun? then !ok else ok && destination[..] == peeked.destination
  {
    var k := if rb.CanRead() <= offset then 0 else Min(s, rb.CanRead() - offset);
    if k == 0 {
      var nothing := new byte[0];
      var _ := rb.PeekAt(nothing, 0, s, offset);
      return true;
    }
    if destinationPos + k > destination.Length { return false; }
    var done := rb.PeekAt(destination, destinationPos, s, offset);
    return done.Some?;
  }

  // When the result is right

  /** Up to round n the destination fills with the items of the channel. */
  lemma {:induction false} LoopFills(v: View, s: nat, block: nat, o: nat, n: nat, limit: nat, j: nat, dest: seq<byte>)
    returns (d: seq<byte>)
    requires v.Ok() && s > 0 && block > 0 && n > 0 && j <= n && Needed(s, block, o, n) <= v.n
    requires limit == Needed(s, block, o, n) && Unsplit(v, s, block, o, n) && |dest| == Pos(s, n)
    requires ChannelDone(dest, v.Queue(), s, block, o, j)
    ensures |d| == |dest| && ChannelDone(d, v.Queue(), s, block, o, n)
    ensures Loop(v, s, block, Pos(s, o), limit, j, dest) == Loop(v, s, block, Pos(s, o), limit, n, d)
    decreases n - j
  {
    if j == n {
      d := dest;
    } else {
      var filled := ItemPeeked(v, s, block, o, n, j, dest);
      RoundBefore(s, block, o, n, j);
      LoopGoesOn(v, s, block, Pos(s, o), limit, j, dest, filled);
      d := LoopFills(v, s, block, o, n, limit, j + 1, filled);
    }
  }

  lemma LoopGoesOn(v: View, s: nat, block: nat, first: nat, limit: nat, j: nat, dest: seq<byte>, filled: seq<byte>)
    requires v.Ok() && s > 0 && block > 0 && RoundPos(s, block, j) < limit
    requires PeekInto(v, s, first + RoundPos(s, block, j), dest, Pos(s, j)) == Filled(filled)
    ensures Loop(v, s, block, first, limit, j, dest) == Loop(v, s, block, first, limit, j + 1, filled)
  {
  }

  /** Before round n the loop goes on. */
  lemma RoundBefore(s: nat, block: nat, o: nat, n: nat, j: nat)
    requires s > 0 && n > 0 && j < n
    ensures RoundPos(s, block, j) < Needed(s, block, o, n)
  {
    RoundCount(s, block, o, n, j);
  }

  /** The destination starts with the first j items of the channel. */
  ghost predicate ChannelDone(dest: seq<byte>, q: seq<byte>, s: nat, block: nat, o: nat, j: nat) {
    && (j > 0 ==> Pos(s, o + (j - 1) * block) + s <= |q|)
    && Pos(s, j) <= |dest| && dest[..Pos(s, j)] == Channel(q, s, block, o, j)
  }

  lemma ItemPeeked(v: View, s: nat, block: nat, o: nat, n: nat, j: nat, dest: seq<byte>) returns (d: seq<byte>)
    requires v.Ok() && s > 0 && block > 0 && j < n && Needed(s, block, o, n) <= v.n
    requires Unsplit(v, s, block, o, n) && |dest| == Pos(s, n) && ChannelDone(dest, v.Queue(), s, block, o, j)
    ensures PeekInto(v, s, Pos(s, o) + RoundPos(s, block, j), dest, Pos(s, j)) == Filled(d)
    ensures |d| == |dest| && ChannelDone(d, v.Queue(), s, block, o, j + 1)
  {
    RoundPosition(s, block, o, j);
    PositionNeeded(s, block, o, n, j);
    PosNext(s, j);
    PosMonotone(s, j + 1, n);
    PeekedItem(v, s, o + j * block);
    d := Patch(dest, Pos(s, j), Item(v.Queue(), s, o + j * block));
    ItemAppends(v.Queue(), s, block, o, j, dest, d);
  }

  lemma ItemAppends(q: seq<byte>, s: nat, block: nat, o: nat, j: nat, dest: seq<byte>, d: seq<byte>)
    requires ChannelDone(dest, q, s, block, o, j) && Pos(s, o + j * block) + s <= |q|
    requires Pos(s, j + 1) == Pos(s, j) + s <= |dest| && d == Patch(dest, Pos(s, j), Item(q, s, o + j * block))
    ensures ChannelDone(d, q, s, block, o, j + 1)
  {
    PatchEnd(dest, Pos(s, j), Item(q, s, o + j * block), Pos(s, j + 1));
  }

  /** An item that is not split is peeked in full. */
  lemma PeekedItem(v: View, s: nat, k: nat)
    requires v.Ok() && s > 0 && Pos(s, k) + s <= v.n
    requires k == 0 || !v.PeekSplits(s, Pos(s, k))
    ensures !v.PeekOverruns(s, Pos(s, k)) && v.PeekCount(s, Pos(s, k)) == s
    ensures v.Peeked(s, Pos(s, k)) == Item(v.Queue(), s, k)
  {
    assert k == 0 ==> Pos(s, k) == 0;
    PeekExact(v, s, Pos(s, k));
    assert v.Peeked(s, Pos(s, k)) == Announced(v, s, Pos(s, k));
  }

  /** Nothing is readable any more in the rounds from n on. */
  predicate EndsInTime(v: View, s: nat, block: nat, o: nat, n: nat) {
    o < block || v.n <= Pos(s, o + n * block)
  }

  /** Rounds that find nothing readable leave the destination alone. */
  lemma {:induction false} LoopRunsOut(v: View, s: nat, block: nat, o: nat, n: nat, limit: nat, j: nat, dest: seq<byte>)
    requires v.Ok() && s > 0 && block > 0 && n <= j && v.n <= Pos(s, o + n * block)
    ensures Loop(v, s, block, Pos(s, o), limit, j, dest) == Filled(dest)
    decreases limit - RoundPos(s, block, j)
  {
    if RoundPos(s, block, j) < limit {
      RoundPosition(s, block, o, j);
      PosMonotone(block, n, j);
      PosMonotone(s, o + n * block, o + j * block);
      RoundAdvances(s, block, j);
      LoopRunsOut(v, s, block, o, n, limit, j + 1, dest);
    }
  }

  /** Unsplit items, and no readable byte behind the last frame unless the channel is in the block: the channel. */
  lemma UnsplitIsRight(v: View, s: nat, block: nat, o: nat, n: nat, dest: seq<byte>)
    requires v.Ok() && s > 0 && block > 0 && n > 0 && Needed(s, block, o, n) <= v.n && |dest| == Pos(s, n)
    requires Unsplit(v, s, block, o, n) && EndsInTime(v, s, block, o, n)
    ensures RightFor(v, s, block, o, n, dest)
  {
    var limit := Needed(s, block, o, n);
    var d := LoopFills(v, s, block, o, n, limit, 0, dest);
    assert d[..Pos(s, n)] == d;
    if o < block {
      RoundCount(s, block, o, n, n);
    } else {
      LoopRunsOut(v, s, block, o, n, limit, n, d);
    }
  }

  /** The last byte of a split item is never stored. */
  lemma {:induction false} LastByteStays(v: View, s: nat, block: nat, o: nat, limit: nat, j: nat, dest: seq<byte>,
      split: nat)
    requires v.Ok() && s > 0 && block > 0
    requires o + split * block > 0 && Pos(s, o + split * block) + s <= v.n && v.PeekSplits(s, Pos(s, o + split * block))
    requires Pos(s, split) + s <= |dest|
    ensures var loop := Loop(v, s, block, Pos(s, o), limit, j, dest); var x := Pos(s, split) + s - 1;
            loop.Overrun? || (|loop.destination| == |dest| && loop.destination[x] == dest[x])
    decreases limit - RoundPos(s, block, j)
  {
    if RoundPos(s, block, j) < limit {
      var peeked := PeekInto(v, s, Pos(s, o) + RoundPos(s, block, j), dest, Pos(s, j));
      if peeked.Filled? {
        ByteUntouched(v, s, block, o, j, dest, split);
        RoundAdvances(s, block, j);
        LastByteStays(v, s, block, o, limit, j + 1, peeked.destination, split);
      }
    }
  }

  lemma ByteUntouched(v: View, s: nat, block: nat, o: nat, j: nat, dest: seq<byte>, split: nat)
    requires v.Ok() && s > 0 && block > 0
    requires o + split * block > 0 && Pos(s, o + split * block) + s <= v.n && v.PeekSplits(s, Pos(s, o + split * block))
    requires Pos(s, split) + s <= |dest|
    ensures var peeked := PeekInto(v, s, Pos(s, o) + RoundPos(s, block, j), dest, Pos(s, j));
            var x := Pos(s, split) + s - 1;
            peeked.Overrun? || (|peeked.destination| == |dest| && peeked.destination[x] == dest[x])
  {
    if j < split {
      PosNext(s, j);
      PosMonotone(s, j + 1, split);
    } else if split < j {
      PosNext(s, split);
      PosMonotone(s, split + 1, j);
    } else {
      RoundPosition(s, block, o, split);
      PosMonotone(s, 1, o + split * block);
    }
  }

  /** The call leaves the channel in this destination. */
  predicate RightFor(v: View, s: nat, block: nat, o: nat, n: nat, dest: seq<byte>)
    requires v.Ok() && s > 0 && block > 0 && n > 0 && Needed(s, block, o, n) <= v.n
  {
    Loop(v, s, block, Pos(s, o), Needed(s, block, o, n), 0, dest) == Filled(Channel(v.Queue(), s, block, o, n))
  }

  /** A split item comes out wrong in some destination. */
  lemma SplitIsWrong(v: View, s: nat, block: nat, o: nat, n: nat, split: nat)
    requires v.Ok() && s > 0 && block > 0 && n > 0 && Needed(s, block, o, n) <= v.n && split < n
    requires o + split * block > 0 && v.PeekSplits(s, Pos(s, o + split * block))
    ensures exists dest: seq<byte> :: |dest| == Pos(s, n) && !RightFor(v, s, block, o, n, dest)
  {
    PositionNeeded(s, block, o, n, split);
    ChannelItem(v.Queue(), s, block, o, n, split);
    var x := Pos(s, split) + s - 1;
    var right := Channel(v.Queue(), s, block, o, n)[x];
    var other: byte := if right == 0 then 1 else 0;
    var dest := seq(Pos(s, n), _ => other);
    LastByteStays(v, s, block, o, Needed(s, block, o, n), 0, dest, split);
    assert dest[x] == other;
  }

  /** A channel beyond the block goes on to store behind the destination while there is something readable. */
  lemma {:induction false} BeyondOverruns(v: View, s: nat, block: nat, o: nat, n: nat, j: nat, dest: seq<byte>)
    requires v.Ok() && s > 0 && block > 0 && n > 0 && j <= n && |dest| == Pos(s, n)
    requires o >= block && Pos(s, o + n * block) < v.n
    ensures Loop(v, s, block, Pos(s, o), Needed(s, block, o, n), j, dest) == Overrun
    decreases n - j
  {
    RoundCount(s, block, o, n, j);
    RoundPosition(s, block, o, j);
    if j < n {
      var peeked := PeekInto(v, s, Pos(s, o) + RoundPos(s, block, j), dest, Pos(s, j));
      if peeked.Filled? {
        BeyondOverruns(v, s, block, o, n, j + 1, peeked.destination);
      }
    }
  }

  /**
   The items of the channel arrive, whatever was in the destination, if and only if none of
   them straddles the physical end at a positive offset and, for a channel that is not in
   the block, nothing is readable behind the last frame.
   */
  lemma DeinterleaveExact(v: View, s: nat, block: nat, o: nat, n: nat)
    requires v.Ok() && s > 0 && block > 0 && n > 0 && Needed(s, block, o, n) <= v.n
    ensures (Unsplit(v, s, block, o, n) && EndsInTime(v, s, block, o, n)) <==>
            (forall dest: seq<byte> :: |dest| == Pos(s, n) ==> RightFor(v, s, block, o, n, dest))
  {
    if !EndsInTime(v, s, block, o, n) {
      var dest: seq<byte> := seq(Pos(s, n), _ => 0);
      BeyondOverruns(v, s, block, o, n, 0, dest);
      assert |dest| == Pos(s, n) && !RightFor(v, s, block, o, n, dest);
    } else if !Unsplit(v, s, block, o, n) {
      var split: nat :| split < n && !(o + split * block == 0 || !v.PeekSplits(s, Pos(s, o + split * block)));
      SplitIsWrong(v, s, block, o, n, split);
    } else {
      forall dest: seq<byte> | |dest| == Pos(s, n)
        ensures RightFor(v, s, block, o, n, dest)
      {
        UnsplitIsRight(v, s, block, o, n, dest);
      }
    }
  }

  // All channels together

  /** Item k of the interleaved data is item k / block of channel k % block. */
  lemma {:induction false} ChannelItem(q: seq<byte>, s: nat, block: nat, o: nat, n: nat, j: nat)
    requires j < n && Pos(s, o + (n - 1) * block) + s <= |q|
    ensures Pos(s, o + j * block) + s <= |q| && Pos(s, j) + s <= Pos(s, n)
    ensures Item(Channel(q, s, block, o, n), s, j) == Item(q, s, o + j * block)
    decreases n
  {
    PosMonotone(block, j, n - 1);
    PosMonotone(s, o + j * block, o + (n - 1) * block);
    PosNext(s, j);
    PosNext(s, n - 1);
    PosMonotone(s, j + 1, n);
    var c := Channel(q, s, block, o, n);
    if j < n - 1 {
      PosMonotone(block, n - 2, n - 1);
      PosMonotone(s, o + (n - 2) * block, o + (n - 1) * block);
      PosMonotone(s, j + 1, n - 1);
      ChannelItem(q, s, block, o, n - 1, j);
      assert c[..Pos(s, n - 1)] == Channel(q, s, block, o, n - 1);
      assert Item(c, s, j) == Item(c[..Pos(s, n - 1)], s, j);
    } else {
      assert c[Pos(s, n - 1)..] == Item(q, s, o + (n - 1) * block);
    }
  }

  /** Channel by channel, the item is in place. */
  ghost predicate HasItem(channel: seq<byte>, s: nat, j: nat) {
    Pos(s, j) + s <= |channel|
  }

  /** The channels hold the first k items of the frames. */
  ghost predicate LongEnough(channels: seq<seq<byte>>, s: nat, k: nat)
    requires |channels| > 0
  {
    forall i: nat :: i < k ==> HasItem(channels[i % |channels|], s, i / |channels|)
  }

  /** The first k items of the frames whose channels are given. */
  ghost function Weave(channels: seq<seq<byte>>, s: nat, k: nat): seq<byte>
    requires |channels| > 0
    requires LongEnough(channels, s, k)
    decreases k
  {
    if k == 0 then [] else
    Weave(channels, s, k - 1) + Item(channels[(k - 1) % |channels|], s, (k - 1) / |channels|)
  }

  /** The n-item channels of the first n frames of q. */
  ghost predicate AreChannels(channels: seq<seq<byte>>, q: seq<byte>, s: nat, n: nat) {
    forall o :: 0 <= o < |channels| ==> IsChannel(channels[o], q, s, |channels|, o, n)
  }

  ghost predicate IsChannel(c: seq<byte>, q: seq<byte>, s: nat, block: nat, o: nat, n: nat) {
    (n > 0 ==> Pos(s, o + (n - 1) * block) + s <= |q|) && c == Channel(q, s, block, o, n)
  }

  /** Deinterleaving every channel of a block and weaving them again restores the data. */
  lemma {:induction false} WeaveRestores(q: seq<byte>, s: nat, n: nat, channels: seq<seq<byte>>, k: nat)
    requires |channels| > 0 && k <= n * |channels|
    requires AreChannels(channels, q, s, n)
    ensures LongEnough(channels, s, k)
    ensures Pos(s, k) <= |q| && Weave(channels, s, k) == q[..Pos(s, k)]
    decreases k
  {
    if k == 0 {
      assert Pos(s, 0) == 0;
    } else {
      WeaveRestores(q, s, n, channels, k - 1);
      WeaveStep(q, s, n, channels, k - 1);
      OneMoreWoven(q, s, channels, k);
    }
  }

  lemma OneMoreWoven(q: seq<byte>, s: nat, channels: seq<seq<byte>>, k: nat)
    requires |channels| > 0 && k > 0
    requires LongEnough(channels, s, k)
    requires Pos(s, k - 1) <= Pos(s, k) <= |q| && Weave(channels, s, k - 1) == q[..Pos(s, k - 1)]
    requires Item(channels[(k - 1) % |channels|], s, (k - 1) / |channels|) == q[Pos(s, k - 1)..Pos(s, k)]
    ensures Weave(channels, s, k) == q[..Pos(s, k)]
  {
    assert q[..Pos(s, k - 1)] + q[Pos(s, k - 1)..Pos(s, k)] == q[..Pos(s, k)];
  }

  lemma WeaveStep(q: seq<byte>, s: nat, n: nat, channels: seq<seq<byte>>, i: nat)
    requires |channels| > 0 && i < n * |channels|
    requires AreChannels(channels, q, s, n)
    ensures HasItem(channels[i % |channels|], s, i / |channels|)
    ensures Pos(s, i + 1) == Pos(s, i) + s <= |q|
    ensures Item(channels[i % |channels|], s, i / |channels|) == q[Pos(s, i)..Pos(s, i + 1)]
  {
    var block := |channels|;
    var j, o := i / block, i % block;
    PlaceInFrames(i, block, n);
    assert IsChannel(channels[o], q, s, block, o, n);
    ChannelItem(q, s, block, o, n, j);
    PosNext(s, i);
  }

  /** Item i of n frames lies in one of them. */
  lemma PlaceInFrames(i: nat, block: nat, n: nat)
    requires block > 0 && i < n * block
    ensures i / block < n && i == i % block + (i / block) * block
  {
    if i / block >= n {
      PosMonotone(block, n, i / block);
    }
  }

  /** In a buffer of whole items with the read index on an item, no item of any channel is split. */
  lemma AlignedChannel(v: View, s: nat, block: nat, o: nat, n: nat)
    requires v.Ok() && s > 0 && v.Size() % s == 0 && v.r % s == 0
    ensures Unsplit(v, s, block, o, n)
  {
    forall j: nat | j < n ensures !v.PeekSplits(s, Pos(s, o + j * block)) {
      AlignedIsUnsplit(v, s, o + j * block);
    }
  }

  /**
   Every channel of the first n frames of an aligned buffer, one call per channel: all of
   them succeed, and weaving them restores the interleaved bytes, which stay in the buffer.
   */
  method DeinterleaveAll(rb: Rb, s: nat, block: nat, n: nat) returns (channels: seq<seq<byte>>)
    requires rb.Valid() && s > 0 && block > 0 && n > 0
    requires rb.buf.Length % s == 0 && rb.readIndex % s == 0 && Pos(s, n * block) <= |rb.Queue()|
    modifies rb`stats
    ensures rb.Valid() && rb.Abs() == old(rb.Abs()) && OnlyPeeked(old(rb.stats), rb.stats)
    ensures |channels| == block
    ensures LongEnough(channels, s, n * block)
    ensures Weave(channels, s, n * block) == rb.Queue()[..Pos(s, n * block)]
  {
    channels := [];
    ghost var view := rb.Abs();
    for o := 0 to block
      invariant rb.Valid() && rb.Abs() == view && OnlyPeeked(old(rb.stats), rb.stats) && |channels| == o
      invariant forall i :: 0 <= i < o ==> IsChannel(channels[i], view.Queue(), s, block, i, n)
    {
      var c := DeinterleaveChannel(rb, s, block, o, n);
      channels := channels + [c];
    }
    WeaveRestores(view.Queue(), s, n, channels, n * block);
  }

  method DeinterleaveChannel(rb: Rb, s: nat, block: nat, o: nat, n: nat) returns (channel: seq<byte>)
    requires rb.Valid() && s > 0 && o < block && n > 0
    requires rb.buf.Length % s == 0 && rb.readIndex % s == 0 && Pos(s, n * block) <= |rb.Queue()|
    modifies rb`stats
    ensures rb.Valid() && rb.Abs() == old(rb.Abs()) && OnlyPeeked(old(rb.stats), rb.stats)
    ensures IsChannel(channel, rb.Queue(), s, block, o, n)
  {
    WholeFrames(s, block, o, n);
    AlignedChannel(rb.Abs(), s, block, o, n);
    var destination := new byte[n * s];
    UnsplitIsRight(rb.Abs(), s, block, o, n, destination[..]);
    var done := DeinterleaveItems(rb, destination, n, s, o, block);
    channel := destination[..];
  }

  /** A channel of whole frames is in the readable bytes, and the sizes fit 64 bits. */
  lemma WholeFrames(s: nat, block: nat, o: nat, n: nat)
    requires s > 0 && o < block && n > 0
    ensures Needed(s, block, o, n) <= Pos(s, n * block)
    ensures Pos(s, n * block) <= MAX_SIZE ==> Fits(s, block, o, n)
  {
    PosNext(block, n - 1);
    PosMonotone(s, o + (n - 1) * block + 1, n * block);
    PosNext(s, o + (n - 1) * block);
    PosMonotone(s, o, n * block);
    PosMonotone(block, 1, n);
    PosMonotone(s, block, n * block);
  }
}
