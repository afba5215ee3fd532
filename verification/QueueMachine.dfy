/**
 A bounded byte queue driven by a script of calls: the common meaning of the two ring
 buffers, and what every run of it conserves.
 */
module QueueMachine {
  import opened MachineInt
  import opened Cyclic
  import opened ByteQueue

  datatype Op =
    | Write(data: seq<byte>)
    | Read(count: nat)
    | Peek(count: nat)
    | Skip(count: nat)
    | Fill(data: seq<byte>)
    | Spaces
    | Reset

  /** Fill copies to the writable regions and then advances the write index; Skip advances the read index. */
  predicate InRange(capacity: nat, q: seq<byte>, op: Op) {
    match op
    case Skip(count) => count <= |q|
    case Fill(data) => |q| + |data| <= capacity
    case _ => true
  }

  /** The queue and the caller's observation after one call on a queue of the given capacity. */
  function Step(capacity: nat, q: seq<byte>, op: Op): (seq<byte>, Seen)
    requires |q| <= capacity
  {
    match op
    case Write(data) =>
      var n := Min(|data|, capacity - |q|);
      (q + data[..n], Count(n))
    case Read(count) =>
      var n := Min(count, |q|);
      (q[n..], Bytes(q[..n]))
    case Peek(count) => (q, Bytes(q[..Min(count, |q|)]))
    case Skip(count) =>
      var n := Min(count, |q|);
      (q[n..], Nothing)
    case Fill(data) => (q + data[..Min(|data|, capacity - |q|)], Nothing)
    case Spaces => (q, Space(|q|, capacity - |q|))
    case Reset => ([], Nothing)
  }

  function Final(capacity: nat, q: seq<byte>, script: seq<Op>): (r: seq<byte>)
    requires |q| <= capacity
    ensures |r| <= capacity
    decreases |script|
  {
    if |script| == 0 then q else Final(capacity, Step(capacity, q, script[0]).0, script[1..])
  }

  function Trace(capacity: nat, q: seq<byte>, script: seq<Op>): (t: seq<Seen>)
    requires |q| <= capacity
    ensures |t| == |script|
    decreases |script|
  {
    if |script| == 0 then [] else
    var (q', seen) := Step(capacity, q, script[0]);
    [seen] + Trace(capacity, q', script[1..])
  }

  predicate Adds(op: Op) {
    op.Write? || op.Fill?
  }

  /** Bytes that entered the queue during a script, in order. */
  function Entered(capacity: nat, q: seq<byte>, script: seq<Op>): seq<byte>
    requires |q| <= capacity
    decreases |script|
  {
    if |script| == 0 then [] else
    var q' := Step(capacity, q, script[0]).0;
    (if Adds(script[0]) then q'[|q|..] else []) + Entered(capacity, q', script[1..])
  }

  /** Bytes that left the queue during a script, in order, by a read, a skip or a reset. */
  function Left(capacity: nat, q: seq<byte>, script: seq<Op>): seq<byte>
    requires |q| <= capacity
    decreases |script|
  {
    if |script| == 0 then [] else
    var q' := Step(capacity, q, script[0]).0;
    (if Adds(script[0]) then [] else q[..|q| - |q'|]) + Left(capacity, q', script[1..])
  }

  /** First in, first out: what was there, then what entered, is what left, then what is there. */
  lemma {:induction false} Conservation(capacity: nat, q: seq<byte>, script: seq<Op>)
    requires |q| <= capacity
    ensures q + Entered(capacity, q, script) == Left(capacity, q, script) + Final(capacity, q, script)
    decreases |script|
  {
    if |script| != 0 {
      var q' := Step(capacity, q, script[0]).0;
      Conservation(capacity, q', script[1..]);
      var entered, left := Entered(capacity, q', script[1..]), Left(capacity, q', script[1..]);
      var final := Final(capacity, q', script[1..]);
      if Adds(script[0]) {
        assert q + q'[|q|..] == [] + q';
        QueuesChain(q, q'[|q|..], [], q', entered, left, final);
      } else {
        assert q + [] == q[..|q| - |q'|] + q';
        QueuesChain(q, [], q[..|q| - |q'|], q', entered, left, final);
      }
    }
  }
}
