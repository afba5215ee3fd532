/**
 The ring buffer of rb.h was derived from the JACK one. With one slot more, the JACK
 buffer is indistinguishable from it for every script of calls.
 */
module TwoRings {
  import opened MachineInt
  import opened ByteQueue
  import opened Cyclic
  import opened RingBuffer
  import opened JackRing
  import opened Regions
  import opened JackVectors
  import Q = QueueMachine
  import R = RbRuns

  /** The rb.h call of a scripted operation that is a single call. */
  function AsCall(op: Q.Op): R.Call {
    match op
    case Write(data) => R.Write(data)
    case Read(count) => R.Read(count)
    case Peek(count) => R.Peek(count)
    case Skip(count) => R.Skip(count)
    case Fill(data) => R.Write(data)
    case Spaces => R.Spaces
    case Reset => R.Reset
  }

  /** What the common interface shows of what rb.h returns: advances return nothing. */
  function Passed(op: Q.Op, seen: Seen): Seen {
    if seen.Count? && !op.Write? then Seen.Nothing else seen
  }

  /** The call on the queue of bytes leaves this queue and shows this. */
  predicate Steps(capacity: nat, q: seq<byte>, op: Q.Op, q': seq<byte>, seen: Seen)
    requires |q| <= capacity
  {
    (q', seen) == Q.Step(capacity, q, op)
  }

  lemma CallIsStep(v: View, op: Q.Op)
    requires v.Ok()
    ensures Steps(v.Size(), v.Queue(), op, R.After(v, AsCall(op)).Queue(), Passed(op, R.SeenOf(v, AsCall(op))))
  {
    var k := R.Moves(v, AsCall(op));
    match op
    case Write(data) => PutAppends(v, data[..k]);
    case Fill(data) => PutAppends(v, data[..k]);
    case Read(_) => TakeRemoves(v, k);
    case Skip(_) => TakeRemoves(v, k);
    case Peek(_) =>
    case Spaces =>
    case Reset => assert R.After(v, R.Reset).Queue() == [];
  }

  /** Direct access to the write regions, then the write advance. */
  method FillRb(rb: Rb, data: seq<byte>)
    requires rb.Valid() && |rb.Queue()| + |data| <= rb.buf.Length
    modifies rb, rb.buf
    ensures rb.Valid() && rb.Queue() == old(rb.Queue()) + data
    ensures old(R.Balanced(rb)) ==> R.Balanced(rb)
  {
    ghost var v, before := rb.Abs(), rb.stats;
    assert |rb.Queue()| == rb.CanRead();
    PutAppends(v, data);
    WriteDirectly(rb, data);
    if Wrap64(before.write - before.read) == v.n {
      R.BalanceMoves(before, rb.stats, v.n, |data|, 0);
    }
  }

  /** One scripted operation on an rb.h buffer. */
  method StepRb(rb: Rb, op: Q.Op) returns (seen: Seen)
    requires rb.Valid() && Q.InRange(rb.buf.Length, rb.Queue(), op)
    modifies rb, rb.buf
    ensures rb.Valid()
    ensures Steps(rb.buf.Length, old(rb.Queue()), op, rb.Queue(), seen)
    ensures old(R.Balanced(rb)) ==> R.Balanced(rb)
  {
    ghost var v := rb.Abs();
    if op.Fill? {
      assert op.data[..|op.data|] == op.data;
      FillRb(rb, op.data);
      seen := Seen.Nothing;
    } else {
      CallIsStep(v, op);
      var shown := R.PerformOne(rb, AsCall(op));
      seen := Passed(op, shown);
    }
  }

  /** The operations on a JACK buffer that add bytes. */
  method PutJack(j: Jack, op: Q.Op) returns (seen: Seen)
    requires j.Valid() && Q.InRange(j.g.size - 1, j.Queue(), op) && Q.Adds(op)
    modifies j, j.buf
    ensures j.Valid()
    ensures Steps(j.g.size - 1, old(j.Queue()), op, j.Queue(), seen)
  {
    ghost var v := j.Abs();
    if op.Write? {
      var n := j.Write(op.data);
      PutAppends(v, op.data[..n]);
      seen := Seen.Count(n);
    } else {
      assert op.data[..|op.data|] == op.data;
      PutAppends(v, op.data);
      WriteThroughVector(j, op.data);
      seen := Seen.Nothing;
    }
  }

  /** The operations on a JACK buffer that take bytes off the front. */
  method TakeJack(j: Jack, op: Q.Op) returns (seen: Seen)
    requires j.Valid() && Q.InRange(j.g.size - 1, j.Queue(), op) && (op.Read? || op.Skip?)
    modifies j
    ensures j.Valid()
    ensures Steps(j.g.size - 1, old(j.Queue()), op, j.Queue(), seen)
  {
    ghost var v := j.Abs();
    TakeRemoves(v, Min(op.count, v.n));
    if op.Read? {
      var data := j.Read(op.count);
      seen := Seen.Bytes(data);
    } else {
      j.ReadAdvance(op.count);
      seen := Seen.Nothing;
    }
  }

  /** One scripted operation on a JACK buffer; it advances without checking, so the script must stay in range. */
  method StepJack(j: Jack, op: Q.Op) returns (seen: Seen)
    requires j.Valid() && Q.InRange(j.g.size - 1, j.Queue(), op)
    modifies j, j.buf
    ensures j.Valid()
    ensures Steps(j.g.size - 1, old(j.Queue()), op, j.Queue(), seen)
  {
    if Q.Adds(op) {
      seen := PutJack(j, op);
    } else if op.Read? || op.Skip? {
      seen := TakeJack(j, op);
    } else if op.Peek? {
      var data := j.Peek(op.count);
      seen := Seen.Bytes(data);
    } else if op.Spaces? {
      var r, w := j.Spaces();
      seen := Seen.Space(r, w);
    } else {
      j.Reset();
      seen := Seen.Nothing;
    }
  }

  /** Every advance of the script stays within the bytes that are readable or writable at that time. */
  ghost predicate InRange(capacity: nat, q: seq<byte>, script: seq<Q.Op>)
    requires |q| <= capacity
    decreases |script|
  {
    |script| == 0 ||
    (&& Q.InRange(capacity, q, script[0])
     && InRange(capacity, Q.Step(capacity, q, script[0]).0, script[1..]))
  }

  /**
   An rb.h buffer of size S - 1 and a JACK buffer of size S run the same script: the
   callers see the same counts and bytes, which are those of the bounded queue.
   */
  method Lockstep(rb: Rb, j: Jack, script: seq<Q.Op>) returns (seenRb: seq<Seen>, seenJack: seq<Seen>)
    requires rb.Valid() && j.Valid() && rb.buf != j.buf
    requires rb.buf.Length == j.g.size - 1 && rb.Queue() == j.Queue()
    requires InRange(rb.buf.Length, rb.Queue(), script)
    modifies rb, rb.buf, j, j.buf
    ensures rb.Valid() && j.Valid()
    ensures seenRb == seenJack == Q.Trace(rb.buf.Length, old(rb.Queue()), script)
    ensures rb.Queue() == j.Queue() == Q.Final(rb.buf.Length, old(rb.Queue()), script)
    ensures old(R.Balanced(rb)) ==> R.Balanced(rb)
  {
    seenRb, seenJack := [], [];
    ghost var capacity, start := rb.buf.Length, rb.Queue();
    for k := 0 to |script|
      invariant rb.Valid() && j.Valid() && rb.Queue() == j.Queue()
      invariant InRange(capacity, rb.Queue(), script[k..])
      invariant seenRb == seenJack
      invariant seenRb + Q.Trace(capacity, rb.Queue(), script[k..]) == Q.Trace(capacity, start, script)
      invariant Q.Final(capacity, rb.Queue(), script[k..]) == Q.Final(capacity, start, script)
      invariant old(R.Balanced(rb)) ==> R.Balanced(rb)
    {
      ghost var q := rb.Queue();
      var a := StepRb(rb, script[k]);
      var b := StepJack(j, script[k]);
      assert script[k..][0] == script[k] && script[k..][1..] == script[k + 1..];
      ConcatAssociates(seenRb, [a], Q.Trace(capacity, rb.Queue(), script[k + 1..]));
      seenRb, seenJack := seenRb + [a], seenJack + [b];
    }
  }

  // Scripts that also advance the write index over bytes nobody has stored

  /** A common operation, or a bare write advance, which makes readable what the memory happens to hold. */
  datatype Any = Common(op: Q.Op) | Expose(count: nat)

  /** What does not depend on the bytes in the memory. */
  datatype Shape = Number(n: nat) | Length(n: nat) | Room(canRead: nat, canWrite: nat) | Silent

  function ShapeOf(seen: Seen): Shape {
    match seen
    case Count(n) => Number(n)
    case Bytes(bytes) => Length(|bytes|)
    case Space(r, w) => Room(r, w)
    case _ => Silent
  }

  function ShapesOf(seen: seq<Seen>): (t: seq<Shape>)
    ensures |t| == |seen| && forall i :: 0 <= i < |t| ==> t[i] == ShapeOf(seen[i])
  {
    seq(|seen|, i requires 0 <= i < |seen| => ShapeOf(seen[i]))
  }

  /** The number of readable bytes and what is seen, given the number before. */
  function LengthStep(capacity: nat, n: nat, a: Any): (r: (nat, Shape))
    requires n <= capacity
    ensures r.0 <= capacity
  {
    match a
    case Common(Write(data)) => (n + Min(|data|, capacity - n), Number(Min(|data|, capacity - n)))
    case Common(Read(count)) => (n - Min(count, n), Length(Min(count, n)))
    case Common(Peek(count)) => (n, Length(Min(count, n)))
    case Common(Skip(count)) => (n - Min(count, n), Silent)
    case Common(Fill(data)) => (n + Min(|data|, capacity - n), Silent)
    case Common(Spaces) => (n, Room(n, capacity - n))
    case Common(Reset) => (0, Silent)
    case Expose(count) => (n + Min(count, capacity - n), Silent)
  }

  function LengthFinal(capacity: nat, n: nat, script: seq<Any>): nat
    requires n <= capacity
    decreases |script|
  {
    if |script| == 0 then n else LengthFinal(capacity, LengthStep(capacity, n, script[0]).0, script[1..])
  }

  function LengthTrace(capacity: nat, n: nat, script: seq<Any>): seq<Shape>
    requires n <= capacity
    decreases |script|
  {
    if |script| == 0 then [] else
    var (n', shape) := LengthStep(capacity, n, script[0]);
    [shape] + LengthTrace(capacity, n', script[1..])
  }

  predicate LengthInRange(capacity: nat, n: nat, a: Any) {
    match a
    case Common(Skip(count)) => count <= n
    case Common(Fill(data)) => n + |data| <= capacity
    case Expose(count) => n + count <= capacity
    case _ => true
  }

  predicate LengthsInRange(capacity: nat, n: nat, script: seq<Any>)
    requires n <= capacity
    decreases |script|
  {
    |script| == 0 ||
    (&& LengthInRange(capacity, n, script[0])
     && LengthsInRange(capacity, LengthStep(capacity, n, script[0]).0, script[1..]))
  }

  lemma StepLength(capacity: nat, q: seq<byte>, op: Q.Op, q': seq<byte>, seen: Seen)
    requires |q| <= capacity && Steps(capacity, q, op, q', seen)
    ensures (|q'|, ShapeOf(seen)) == LengthStep(capacity, |q|, Common(op))
  {
  }

  method AnyRb(rb: Rb, a: Any) returns (seen: Seen)
    requires rb.Valid() && LengthInRange(rb.buf.Length, |rb.Queue()|, a)
    modifies rb, rb.buf
    ensures rb.Valid()
    ensures (|rb.Queue()|, ShapeOf(seen)) == LengthStep(rb.buf.Length, |old(rb.Queue())|, a)
    ensures old(R.Balanced(rb)) ==> R.Balanced(rb)
  {
    ghost var q := rb.Queue();
    match a
    case Common(op) =>
      seen := StepRb(rb, op);
      StepLength(rb.buf.Length, q, op, rb.Queue(), seen);
    case Expose(count) =>
      var _ := R.PerformOne(rb, R.AdvanceWrite(count));
      seen := Seen.Nothing;
  }

  method AnyJack(j: Jack, a: Any) returns (seen: Seen)
    requires j.Valid() && LengthInRange(j.g.size - 1, |j.Queue()|, a)
    modifies j, j.buf
    ensures j.Valid()
    ensures (|j.Queue()|, ShapeOf(seen)) == LengthStep(j.g.size - 1, |old(j.Queue())|, a)
  {
    ghost var q := j.Queue();
    match a
    case Common(op) =>
      seen := StepJack(j, op);
      StepLength(j.g.size - 1, q, op, j.Queue(), seen);
    case Expose(count) =>
      j.WriteAdvance(count);
      seen := Seen.Nothing;
  }

  /**
   With bare write advances the bytes may differ, because the memories do; the callers still
   see the same counts, lengths and spaces.
   */
  method LockstepInNumbers(rb: Rb, j: Jack, script: seq<Any>) returns (seenRb: seq<Seen>, seenJack: seq<Seen>)
    requires rb.Valid() && j.Valid() && rb.buf != j.buf
    requires rb.buf.Length == j.g.size - 1 && |rb.Queue()| == |j.Queue()|
    requires LengthsInRange(rb.buf.Length, |rb.Queue()|, script)
    modifies rb, rb.buf, j, j.buf
    ensures rb.Valid() && j.Valid()
    ensures ShapesOf(seenRb) == ShapesOf(seenJack) == LengthTrace(rb.buf.Length, |old(rb.Queue())|, script)
    ensures |rb.Queue()| == |j.Queue()| == LengthFinal(rb.buf.Length, |old(rb.Queue())|, script)
    ensures old(R.Balanced(rb)) ==> R.Balanced(rb)
    decreases |script|
  {
    if |script| == 0 { return [], []; }
    var a := AnyRb(rb, script[0]);
    var b := AnyJack(j, script[0]);
    seenRb, seenJack := LockstepInNumbers(rb, j, script[1..]);
    FirstShape(a, seenRb);
    FirstShape(b, seenJack);
    seenRb, seenJack := [a] + seenRb, [b] + seenJack;
  }

  lemma FirstShape(first: Seen, rest: seq<Seen>)
    ensures ShapesOf([first] + rest) == [ShapeOf(first)] + ShapesOf(rest)
  {
  }
}
