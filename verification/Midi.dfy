/**
 MIDI framing on top of a ring buffer: finding and consuming the next complete message,
 skipping stray data bytes.
 */
module Midi {
  import opened MachineInt
  import opened Options
  import opened Cyclic
  import opened ByteQueue
  import opened RingBuffer

  /** The command half of a byte, c & 0xF0. */
  function Kind(c: byte): nat {
    BitAnd(c as nat, 0xF0)
  }

  /** Length of the message that a byte starts, as the code finds it; 0 for a data byte. */
  function MessageLength(c: byte): nat {
    var kind := Kind(c);
    if kind == 0x80 || kind == 0x90 || kind == 0xA0 || kind == 0xB0 || kind == 0xE0 then 3
    else if kind == 0xC0 || kind == 0xD0 then 2
    else if kind == 0xF0 then 1
    else 0
  }

  /**
   The lengths of MIDI messages by their first byte: a command below 0xF0 has two parameters, but program change
   and channel pressure have one; the others have none. Bytes below 0x80 are parameters.
   */
  function Length(c: byte): (n: nat)
    ensures n <= 3
  {
    if c < 0x80 then 0
    else if 0xC0 <= c <= 0xDF then 2
    else if c < 0xF0 then 3
    else 1
  }

  /** The mask keeps the upper half of the byte, so the code's table has the lengths of the ranges. */
  lemma DataBytes(c: byte)
    ensures Kind(c) == (c as nat / 16) * 16
    ensures MessageLength(c) == Length(c)
    ensures MessageLength(c) == 0 <==> c < 0x80
  {
    UpperHalf(c as nat, 0xF0);
    UpperHalves(c as nat / 16, c as nat);
  }

  lemma UpperHalves(half: nat, x: nat)
    requires x < 256 && half == x / 16
    ensures half < 16 && (16 * half < 0x80 <==> x < 0x80)
    ensures (half == 12 || half == 13) <==> 0xC0 <= x <= 0xDF
    ensures half == 15 <==> 0xF0 <= x
    ensures half >= 8 ==>
              || half == 8 || half == 9 || half == 10 || half == 11
              || half == 12 || half == 13 || half == 14 || half == 15
  {
  }

  lemma UpperHalf(x: nat, mask: nat)
    requires x < 256 && mask == 0xF0
    ensures BitAnd(x, mask) == (x / 16) * 16
  {
    Sixteen(x);
    MaskField(x, 4, 4, mask);
    SmallRemainder(x / 16);
  }

  lemma SmallRemainder(half: nat)
    requires half < 16
    ensures 16 * (half % 16) == half * 16
  {
  }

  lemma Sixteen(x: nat)
    ensures Pow2(4) == 16 && HalveTimes(x, 4) == x / 16
  {
    assert Pow2(2) == 4;
    assert HalveTimes(x, 4) == HalveTimes(x / 2 / 2, 2);
    assert x / 2 / 2 / 2 / 2 == x / 16;
  }

  /** Offset and length of the first message at or behind from, if it is complete. */
  function Find(q: seq<byte>, from: nat): (m: Option<(nat, nat)>)
    ensures m.Some? ==> from <= m.value.0 && 0 < m.value.1 && m.value.0 + m.value.1 <= |q|
    decreases |q| - from
  {
    if from >= |q| then None
    else
      var n := Length(q[from]);
      if n == 0 then Find(q, from + 1)
      else if from + n <= |q| then Some((from, n)) else None
  }

  method FindNextMidiMessage(rb: Rb) returns (m: Option<(nat, nat)>)
    requires rb.Valid()
    modifies rb`stats
    ensures rb.Valid() && rb.Abs() == old(rb.Abs())
    ensures m == Find(rb.Queue(), 0)
    ensures rb.stats.(peek := 0) == old(rb.stats).(peek := 0)
  {
    var skipCounter := 0;
    while rb.CanRead() > skipCounter
      invariant rb.Valid() && rb.Abs() == old(rb.Abs())
      invariant skipCounter <= |rb.Queue()|
      invariant Find(rb.Queue(), 0) == Find(rb.Queue(), skipCounter)
      invariant rb.stats.(peek := 0) == old(rb.stats).(peek := 0)
      decreases |rb.Queue()| - skipCounter
    {
      var c := rb.PeekByteAt(skipCounter);
      DataBytes(c.value);
      var n := MessageLength(c.value);
      if n == 0 {
        skipCounter := skipCounter + 1;
      } else if rb.CanRead() >= skipCounter + n {
        return Some((skipCounter, n));
      } else {
        break;
      }
    }
    return None;
  }

  /** The first complete message was taken from q together with what preceded it, or nothing was. */
  predicate Delivered(q: seq<byte>, message: seq<byte>, left: seq<byte>) {
    match Find(q, 0)
    case Some((offset, n)) => message == q[offset..offset + n] && left == q[offset + n..]
    case None => message == [] && left == q
  }

  method ReadNextMidiMessage(rb: Rb) returns (message: seq<byte>)
    requires rb.Valid()
    modifies rb
    ensures rb.Valid()
    ensures Delivered(old(rb.Queue()), message, rb.Queue())
    ensures message == [] ==> rb.Abs() == old(rb.Abs())
    ensures rb.stats.(peek := 0) ==
            if message == [] then old(rb.stats).(peek := 0, underflows := Wrap64(old(rb.stats).underflows + 1))
            else old(rb.stats).(peek := 0, read := Wrap64(old(rb.stats).read + |old(rb.Queue())| - |rb.Queue()|))
  {
    var m := FindNextMidiMessage(rb);
    if m.None? {
      rb.stats := rb.stats.(underflows := Wrap64(rb.stats.underflows + 1));
      return [];
    }
    var (offset, n) := m.value;
    message := SkipAndRead(rb, offset, n);
  }

  method SkipAndRead(rb: Rb, offset: nat, n: nat) returns (data: seq<byte>)
    requires rb.Valid() && 0 < n && offset + n <= |rb.Queue()|
    modifies rb
    ensures rb.Valid()
    ensures data == old(rb.Queue())[offset..offset + n] && rb.Queue() == old(rb.Queue())[offset + n..]
    ensures rb.stats == old(rb.stats).(read := Wrap64(old(rb.stats).read + offset + n))
  {
    ghost var q := rb.Queue();
    SkipFront(rb, offset);
    data := ReadFront(rb, n);
    WrapPlus(old(rb.stats).read + offset, n);
    BehindOffset(q, offset, n);
  }

  lemma BehindOffset(q: seq<byte>, offset: nat, n: nat)
    requires offset + n <= |q|
    ensures q[offset..][..n] == q[offset..offset + n] && q[offset..][n..] == q[offset + n..]
  {
  }

  method SkipFront(rb: Rb, offset: nat)
    requires rb.Valid() && offset <= |rb.Queue()|
    modifies rb
    ensures rb.Valid() && rb.Queue() == old(rb.Queue())[offset..]
    ensures rb.stats == if offset == 0 then old(rb.stats)
                        else old(rb.stats).(read := Wrap64(old(rb.stats).read + offset))
  {
    TakeRemoves(rb.Abs(), offset);
    if offset > 0 {
      var skipped := rb.GenericAdvanceReadIndex(offset, false);
    }
  }

  method ReadFront(rb: Rb, n: nat) returns (data: seq<byte>)
    requires rb.Valid() && 0 < n <= |rb.Queue()|
    modifies rb
    ensures rb.Valid()
    ensures data == old(rb.Queue())[..n] && rb.Queue() == old(rb.Queue())[n..]
    ensures rb.stats == old(rb.stats).(read := Wrap64(old(rb.stats).read + n))
  {
    TakeRemoves(rb.Abs(), n);
    var destination := new byte[n];
    PatchAll(destination[..], rb.Abs().ring[..n]);
    var done := rb.GenericRead(destination, 0, n, false);
    data := destination[..];
  }

  // What repeated reading delivers

  /** The messages that repeated reading extracts, and the bytes it leaves. */
  function Frames(q: seq<byte>): (seq<seq<byte>>, seq<byte>)
    decreases |q|
  {
    match Find(q, 0)
    case None => ([], q)
    case Some((offset, n)) =>
      var (rest, left) := Frames(q[offset + n..]);
      ([q[offset..offset + n]] + rest, left)
  }

  method ReadAllMessages(rb: Rb) returns (messages: seq<seq<byte>>)
    requires rb.Valid()
    modifies rb
    ensures rb.Valid()
    ensures (messages, rb.Queue()) == Frames(old(rb.Queue()))
  {
    messages := [];
    ghost var start, q := rb.Queue(), rb.Queue();
    assert [] + Frames(q).0 == Frames(q).0;
    var message := ReadNextMidiMessage(rb);
    while message != []
      invariant rb.Valid()
      invariant messages + Frames(q).0 == Frames(start).0 && Frames(q).1 == Frames(start).1
      invariant Delivered(q, message, rb.Queue())
      decreases |q|
    {
      ghost var next := rb.Queue();
      ConcatAssociates(messages, [message], Frames(next).0);
      messages := messages + [message];
      q := next;
      message := ReadNextMidiMessage(rb);
    }
    assert Frames(q) == ([], q);
    assert messages + [] == messages;
  }

  /** Stray data bytes followed by one message. */
  datatype Packet = Packet(stray: seq<byte>, message: seq<byte>)

  predicate WellFormed(p: Packet) {
    && (forall i :: 0 <= i < |p.stray| ==> Length(p.stray[i]) == 0)
    && |p.message| > 0 && Length(p.message[0]) == |p.message|
  }

  function Stream(packets: seq<Packet>): seq<byte> {
    if |packets| == 0 then [] else packets[0].stray + packets[0].message + Stream(packets[1..])
  }

  function Messages(packets: seq<Packet>): seq<seq<byte>> {
    seq(|packets|, i requires 0 <= i < |packets| => packets[i].message)
  }

  lemma {:induction false} FindSkipsStray(q: seq<byte>, from: nat, to: nat)
    requires from <= to <= |q|
    requires forall i :: from <= i < to ==> Length(q[i]) == 0
    ensures Find(q, from) == Find(q, to)
    decreases |q| - from
  {
    if from < to {
      FindSkipsStray(q, from + 1, to);
    }
  }

  /** Framing finds exactly the messages that were sent, in order, and leaves an incomplete tail alone. */
  lemma {:induction false} FramesOfStream(packets: seq<Packet>, tail: seq<byte>)
    requires forall p :: p in packets ==> WellFormed(p)
    requires Find(tail, 0) == None
    ensures Frames(Stream(packets) + tail) == (Messages(packets), tail)
    decreases |packets|
  {
    if |packets| == 0 {
      assert Stream(packets) + tail == tail && Messages(packets) == [];
      assert Frames(tail) == ([], tail);
    } else {
      StreamFirst(packets, tail);
      assert packets[0] in packets;
      FramesOfStream(packets[1..], tail);
      FramesOfPacket(packets[0], Stream(packets[1..]) + tail, Stream(packets) + tail);
    }
  }

  lemma StreamFirst(packets: seq<Packet>, tail: seq<byte>)
    requires |packets| > 0
    ensures Stream(packets) + tail == packets[0].stray + packets[0].message + (Stream(packets[1..]) + tail)
    ensures Messages(packets) == [packets[0].message] + Messages(packets[1..])
  {
    ConcatAssociates(packets[0].stray + packets[0].message, Stream(packets[1..]), tail);
    var left, right := Messages(packets), [packets[0].message] + Messages(packets[1..]);
    assert |left| == |right| && forall i :: 0 <= i < |left| ==> left[i] == right[i];
  }

  /** The first packet is the first message, and what is behind it is framed by itself. */
  lemma FramesOfPacket(p: Packet, rest: seq<byte>, q: seq<byte>)
    requires WellFormed(p) && q == p.stray + p.message + rest
    ensures Frames(q) == ([p.message] + Frames(rest).0, Frames(rest).1)
  {
    var k, n := |p.stray|, |p.message|;
    FindSkipsStray(q, 0, k);
    assert q[k] == p.message[0];
    assert q[k..k + n] == p.message && q[k + n..] == rest;
    FramesFirst(q, k, n);
  }

  function Flatten(chunks: seq<seq<byte>>): seq<byte> {
    if |chunks| == 0 then [] else chunks[0] + Flatten(chunks[1..])
  }

  /** Writing chunk by chunk; each chunk fits, so each is accepted in full. */
  method WriteChunks(rb: Rb, chunks: seq<seq<byte>>)
    requires rb.Valid() && |Flatten(chunks)| <= rb.CanWrite()
    modifies rb, rb.buf
    ensures rb.Valid() && rb.Queue() == old(rb.Queue()) + Flatten(chunks)
    decreases |chunks|
  {
    if |chunks| == 0 { return; }
    ghost var view := rb.Abs();
    PutAppends(view, chunks[0]);
    var n := rb.Write(chunks[0]);
    assert chunks[0][..n] == chunks[0];
    WriteChunks(rb, chunks[1..]);
    ConcatAssociates(view.Queue(), chunks[0], Flatten(chunks[1..]));
  }

  /**
   Packets sent through an empty buffer, however the bytes are chunked and wherever the
   indices stand, arrive as the same messages in the same order.
   */
  method Transmit(rb: Rb, chunks: seq<seq<byte>>, ghost packets: seq<Packet>, ghost tail: seq<byte>)
    returns (messages: seq<seq<byte>>)
    requires rb.Valid() && rb.Queue() == [] && |Flatten(chunks)| <= rb.buf.Length
    requires Flatten(chunks) == Stream(packets) + tail
    requires (forall p :: p in packets ==> WellFormed(p)) && Find(tail, 0) == None
    modifies rb, rb.buf
    ensures rb.Valid()
    ensures messages == Messages(packets) && rb.Queue() == tail
  {
    assert |rb.Queue()| == rb.CanRead();
    WriteChunks(rb, chunks);
    assert [] + Flatten(chunks) == Flatten(chunks);
    FramesOfStream(packets, tail);
    messages := ReadAllMessages(rb);
  }

  /** More bytes behind a complete message do not change where it is. */
  lemma {:induction false} FindExtends(q: seq<byte>, x: seq<byte>, from: nat)
    requires Find(q, from).Some?
    ensures Find(q + x, from) == Find(q, from)
    decreases |q| - from
  {
    if Length(q[from]) == 0 {
      FindExtends(q, x, from + 1);
    }
  }

  lemma FramesFirst(q: seq<byte>, offset: nat, n: nat)
    requires Find(q, 0) == Some((offset, n))
    ensures Frames(q) == ([q[offset..offset + n]] + Frames(q[offset + n..]).0, Frames(q[offset + n..]).1)
  {
  }

  /** Reading all messages before more bytes arrive, and then again, delivers what reading only then would. */
  lemma {:induction false} FramesIncremental(q: seq<byte>, x: seq<byte>)
    ensures Frames(q + x).0 == Frames(q).0 + Frames(Frames(q).1 + x).0
    ensures Frames(q + x).1 == Frames(Frames(q).1 + x).1
    decreases |q|
  {
    var m := Find(q, 0);
    if m.None? {
      assert [] + Frames(q + x).0 == Frames(q + x).0;
    } else {
      var (offset, n) := m.value;
      var message, rest := q[offset..offset + n], q[offset + n..];
      FindExtends(q, x, 0);
      assert (q + x)[offset..offset + n] == message && (q + x)[offset + n..] == rest + x;
      FramesFirst(q, offset, n);
      FramesFirst(q + x, offset, n);
      FramesIncremental(rest, x);
      ConcatAssociates([message], Frames(rest).0, Frames(Frames(rest).1 + x).0);
    }
  }

  /** Every chunk fits behind the incomplete rest that reading all messages has left. */
  ghost predicate Fits(capacity: nat, q: seq<byte>, chunks: seq<seq<byte>>)
    decreases |chunks|
  {
    |chunks| == 0 ||
    (|q| + |chunks[0]| <= capacity && Fits(capacity, Frames(q + chunks[0]).1, chunks[1..]))
  }

  /** Write a chunk, read what messages are complete, and so on. */
  method WriteAndRead(rb: Rb, chunks: seq<seq<byte>>) returns (messages: seq<seq<byte>>)
    requires rb.Valid() && Fits(rb.buf.Length, rb.Queue(), chunks) && Find(rb.Queue(), 0) == None
    modifies rb, rb.buf
    ensures rb.Valid()
    ensures (messages, rb.Queue()) == Frames(old(rb.Queue()) + Flatten(chunks))
    decreases |chunks|
  {
    ghost var q := rb.Queue();
    if |chunks| == 0 {
      assert q + Flatten(chunks) == q;
      return [];
    }
    assert |q| == rb.CanRead();
    WriteChunks(rb, [chunks[0]]);
    assert Flatten([chunks[0]]) == chunks[0];
    var first := ReadAllMessages(rb);
    FramesLeaveNone(q + chunks[0]);
    var rest := WriteAndRead(rb, chunks[1..]);
    messages := first + rest;
    FramesIncremental(q + chunks[0], Flatten(chunks[1..]));
    ConcatAssociates(q, chunks[0], Flatten(chunks[1..]));
  }

  lemma {:induction false} FramesLeaveNone(q: seq<byte>)
    ensures Find(Frames(q).1, 0) == None
    decreases |q|
  {
    var m := Find(q, 0);
    if m.Some? {
      FramesLeaveNone(q[m.value.0 + m.value.1..]);
    }
  }

  /**
   A stream of any length, read while it is written: the same messages arrive in the same
   order, wherever the chunks end.
   */
  method Converse(rb: Rb, chunks: seq<seq<byte>>, ghost packets: seq<Packet>, ghost tail: seq<byte>)
    returns (messages: seq<seq<byte>>)
    requires rb.Valid() && rb.Queue() == [] && Fits(rb.buf.Length, [], chunks)
    requires Flatten(chunks) == Stream(packets) + tail
    requires (forall p :: p in packets ==> WellFormed(p)) && Find(tail, 0) == None
    modifies rb, rb.buf
    ensures rb.Valid()
    ensures messages == Messages(packets) && rb.Queue() == tail
  {
    assert [] + Flatten(chunks) == Flatten(chunks);
    FramesOfStream(packets, tail);
    messages := WriteAndRead(rb, chunks);
  }
}
