/**
 Whole runs of the calls of rb.h, over-calls, direct write advances and resets included:
 what every caller sees, what enters and leaves, and when the byte totals stay in balance.
 */
module RbRuns {
  import opened MachineInt
  import opened Cyclic
  import opened ByteQueue
  import opened RingBuffer

  datatype Call =
    | Write(data: seq<byte>)
    | Read(count: nat)
    | OverRead(count: nat)
    | Peek(count: nat)
    | PeekAt(dest: seq<byte>, offset: nat)
    | PeekByteAt(offset: nat)
    | Skip(count: nat)
    | OverSkip(count: nat)
    | Drop
    | AdvanceWrite(count: nat)
    | Spaces
    | Reset
    | ResetStats

  /** How many bytes a call takes off the front or puts behind the end. */
  function Moves(v: View, c: Call): nat
    requires v.n <= v.Size()
  {
    match c
    case Write(data) => Min(|data|, v.Size() - v.n)
    case Read(count) => Min(count, v.n)
    case OverRead(count) => Min(count, v.Size())
    case Skip(count) => Min(count, v.n)
    case OverSkip(count) => Min(count, v.Size())
    case Drop => v.n
    case AdvanceWrite(count) => Min(count, v.Size() - v.n)
    case _ => 0
  }

  /** The buffer after a call. */
  function After(v: View, c: Call): View
    requires v.r < v.Size() && v.n <= v.Size()
  {
    var k := Moves(v, c);
    match c
    case Write(data) => v.Put(data[..k])
    case AdvanceWrite(_) => v.(n := v.n + k)
    case Reset => v.Restart()
    case Peek(_) => v
    case PeekAt(_, _) => v
    case PeekByteAt(_) => v
    case Spaces => v
    case ResetStats => v
    case _ => v.Take(k)
  }

  function SeenOf(v: View, c: Call): Seen
    requires v.n <= v.Size()
  {
    var k := Moves(v, c);
    match c
    case Read(_) => Bytes(v.ring[..k])
    case OverRead(_) => Bytes(v.ring[..k])
    case Peek(count) => Bytes(v.Queue()[..Min(count, v.n)])
    case PeekAt(dest, offset) =>
      if v.PeekOverruns(|dest|, offset) then Outside
      else Copied(v.PeekCount(|dest|, offset), Patch(dest, 0, v.Peeked(|dest|, offset)))
    case PeekByteAt(offset) => Bytes(if offset < v.n then [v.Queue()[offset]] else [])
    case Spaces => Space(v.n, v.Size() - v.n)
    case Reset => Nothing
    case ResetStats => Nothing
    case _ => Count(k)
  }

  /** The byte totals written and read differ by the readable bytes, modulo 2^64. */
  ghost predicate Balanced(rb: Rb)
    requires rb.Valid()
    reads rb
  {
    Wrap64(rb.stats.write - rb.stats.read) == rb.CanRead()
  }

  /**
   The calls that upset the balance: over-calls beyond the readable bytes, and losing the totals of
   what is readable.
   */
  predicate Unbalances(v: View, c: Call) {
    match c
    case OverRead(count) => v.n < Min(count, v.Size())
    case OverSkip(count) => v.n < Min(count, v.Size())
    case ResetStats => v.n > 0
    case _ => false
  }

  /** Wrapping a total before subtracting does not change the wrapped difference. */
  lemma WrapInner(a: int, b: int, d: int)
    ensures Wrap64(Wrap64(a + d) - b) == Wrap64(Wrap64(a - b) + d)
    ensures Wrap64(a - Wrap64(b + d)) == Wrap64(Wrap64(a - b) - d)
  {
    var x, y, z := (a + d) / TWO_TO_64, (b + d) / TWO_TO_64, (a - b) / TWO_TO_64;
    assert a + d == x * TWO_TO_64 + Wrap64(a + d);
    assert b + d == y * TWO_TO_64 + Wrap64(b + d);
    assert a - b == z * TWO_TO_64 + Wrap64(a - b);
    WrapShift(Wrap64(a - b) + d, z - x);
    WrapShift(Wrap64(a - b) - d, z + y);
  }

  /** The totals have grown by these counts. */
  predicate Grown(before: Stats, after: Stats, written: nat, read: nat) {
    && after.write == (if written == 0 then before.write else Wrap64(before.write + written))
    && after.read == (if read == 0 then before.read else Wrap64(before.read + read))
  }

  lemma WrittenMoves(write: nat, write': nat, read: nat, n: nat, written: nat)
    requires Wrap64(write - read) == n && write' == (if written == 0 then write else Wrap64(write + written))
    ensures Wrap64(write' - read) == Wrap64(n + written)
  {
    if written > 0 {
      WrapInner(write, read, written);
    }
  }

  lemma ReadMoves(write: nat, read: nat, read': nat, n: nat, taken: nat)
    requires Wrap64(write - read) == Wrap64(n) && read' == (if taken == 0 then read else Wrap64(read + taken))
    ensures Wrap64(write - read') == Wrap64(n - taken)
  {
    if taken > 0 {
      WrapInner(write, read, taken);
      WrapInner(n, taken, 0);
    }
  }

  lemma BalanceMoves(before: Stats, after: Stats, n: nat, written: nat, read: nat)
    requires Wrap64(before.write - before.read) == n && Grown(before, after, written, read)
    ensures Wrap64(after.write - after.read) == Wrap64(n + written - read)
  {
    WrittenMoves(before.write, after.write, before.read, n, written);
    ReadMoves(after.write, before.read, after.read, n + written, read);
  }

  // Calls that read

  method PerformRead(rb: Rb, count: nat, over: bool) returns (bytes: seq<byte>)
    requires rb.Valid()
    modifies rb
    ensures rb.Valid()
    ensures var k := Min(count, if over then rb.buf.Length else old(rb.CanRead()));
            && bytes == old(rb.Abs()).ring[..k] && rb.Abs() == old(rb.Abs()).Take(k)
            && Grown(old(rb.stats), rb.stats, 0, k)
  {
    var destination := new byte[Min(count, if over then rb.buf.Length else rb.CanRead())];
    PatchAll(destination[..], rb.Abs().ring[..destination.Length]);
    var done := rb.GenericRead(destination, 0, count, over);
    bytes := destination[..];
  }

  method PerformPeek(rb: Rb, count: nat) returns (bytes: seq<byte>)
    requires rb.Valid()
    modifies rb`stats
    ensures rb.Valid() && rb.Abs() == old(rb.Abs())
    ensures bytes == rb.Queue()[..Min(count, rb.CanRead())]
    ensures Grown(old(rb.stats), rb.stats, 0, 0)
  {
    PeekExact(rb.Abs(), count, 0);
    var destination := new byte[Min(count, rb.CanRead())];
    PatchAll(destination[..], rb.Abs().Peeked(count, 0));
    var done := rb.PeekAt(destination, 0, count, 0);
    bytes := destination[..];
  }

  /** A peek into a buffer with the given contents: what it returns and what is in the buffer then. */
  method PerformPeekAt(rb: Rb, dest: seq<byte>, offset: nat) returns (seen: Seen)
    requires rb.Valid()
    modifies rb`stats
    ensures rb.Valid() && rb.Abs() == old(rb.Abs()) && seen == SeenOf(rb.Abs(), PeekAt(dest, offset))
    ensures Grown(old(rb.stats), rb.stats, 0, 0)
  {
    var destination := new byte[|dest|](i requires 0 <= i < |dest| => dest[i]);
    assert destination[..] == dest;
    var done := rb.PeekAt(destination, 0, |dest|, offset);
    seen := if done.Some? then Copied(done.value, destination[..]) else Outside;
  }

  /** Bytes a call adds to the two totals. */
  function Written(v: View, c: Call): nat
    requires v.n <= v.Size()
  {
    if c.Write? || c.AdvanceWrite? then Moves(v, c) else 0
  }

  function Consumed(v: View, c: Call): nat
    requires v.n <= v.Size()
  {
    if c.Write? || c.AdvanceWrite? then 0 else Moves(v, c)
  }

  method PerformMove(rb: Rb, c: Call) returns (seen: Seen)
    requires rb.Valid() && (c.Skip? || c.OverSkip? || c.Drop?)
    modifies rb, rb.buf
    ensures rb.Valid() && rb.Abs() == After(old(rb.Abs()), c) && seen == SeenOf(old(rb.Abs()), c)
    ensures Grown(old(rb.stats), rb.stats, Written(old(rb.Abs()), c), Consumed(old(rb.Abs()), c))
  {
    var n;
    if c.Drop? {
      n := rb.Drop();
    } else {
      n := rb.GenericAdvanceReadIndex(c.count, c.OverSkip?);
    }
    seen := Count(n);
  }

  method PerformPut(rb: Rb, c: Call) returns (seen: Seen)
    requires rb.Valid() && (c.Write? || c.AdvanceWrite?)
    modifies rb, rb.buf
    ensures rb.Valid() && rb.Abs() == After(old(rb.Abs()), c) && seen == SeenOf(old(rb.Abs()), c)
    ensures Grown(old(rb.stats), rb.stats, Written(old(rb.Abs()), c), Consumed(old(rb.Abs()), c))
  {
    var n;
    if c.Write? {
      n := rb.Write(c.data);
    } else {
      n := rb.AdvanceWriteIndex(c.count);
    }
    seen := Count(n);
  }

  method PerformGet(rb: Rb, c: Call) returns (seen: Seen)
    requires rb.Valid() && (c.Read? || c.OverRead? || c.Peek? || c.PeekAt? || c.PeekByteAt?)
    modifies rb, rb.buf
    ensures rb.Valid() && rb.Abs() == After(old(rb.Abs()), c) && seen == SeenOf(old(rb.Abs()), c)
    ensures Grown(old(rb.stats), rb.stats, Written(old(rb.Abs()), c), Consumed(old(rb.Abs()), c))
  {
    match c
    case Read(count) =>
      var bytes := PerformRead(rb, count, false);
      seen := Bytes(bytes);
    case OverRead(count) =>
      var bytes := PerformRead(rb, count, true);
      seen := Bytes(bytes);
    case Peek(count) =>
      var bytes := PerformPeek(rb, count);
      seen := Bytes(bytes);
    case PeekAt(dest, offset) =>
      seen := PerformPeekAt(rb, dest, offset);
    case PeekByteAt(offset) =>
      var b := rb.PeekByteAt(offset);
      seen := Bytes(if b.Some? then [b.value] else []);
  }

  /** One call. */
  method Perform(rb: Rb, c: Call) returns (seen: Seen)
    requires rb.Valid()
    modifies rb, rb.buf
    ensures rb.Valid() && rb.Abs() == After(old(rb.Abs()), c) && seen == SeenOf(old(rb.Abs()), c)
    ensures CallGrows(old(rb.stats), rb.stats, old(rb.Abs()), c)
  {
    if c.Skip? || c.OverSkip? || c.Drop? {
      seen := PerformMove(rb, c);
    } else if c.Write? || c.AdvanceWrite? {
      seen := PerformPut(rb, c);
    } else if c.Spaces? {
      seen := Space(rb.CanRead(), rb.CanWrite());
    } else if c.Reset? {
      rb.Reset();
      seen := Nothing;
    } else if c.ResetStats? {
      rb.ResetStats();
      seen := Nothing;
    } else {
      seen := PerformGet(rb, c);
    }
  }

  /** What a call does to the totals. */
  predicate CallGrows(before: Stats, after: Stats, v: View, c: Call)
    requires v.n <= v.Size()
  {
    if c.Reset? || c.ResetStats? then after == NO_STATS else Grown(before, after, Written(v, c), Consumed(v, c))
  }

  /** After a call the totals balance again, unless it is one of the calls that upset them. */
  lemma CallBalances(before: Stats, after: Stats, v: View, c: Call)
    requires v.Ok() && v.Size() <= MAX_SIZE && Wrap64(before.write - before.read) == v.n
    requires CallGrows(before, after, v, c)
    ensures Wrap64(after.write - after.read) == After(v, c).n <==> !Unbalances(v, c)
  {
    if !(c.Reset? || c.ResetStats?) {
      BalanceMoves(before, after, v.n, Written(v, c), Consumed(v, c));
    }
  }

  // Runs

  function AfterAll(v: View, calls: seq<Call>): View
    requires v.r < v.Size() && v.n <= v.Size()
    decreases |calls|
  {
    if |calls| == 0 then v else AfterAll(After(v, calls[0]), calls[1..])
  }

  function Trace(v: View, calls: seq<Call>): (t: seq<Seen>)
    requires v.r < v.Size() && v.n <= v.Size()
    ensures |t| == |calls|
    decreases |calls|
  {
    if |calls| == 0 then [] else [SeenOf(v, calls[0])] + Trace(After(v, calls[0]), calls[1..])
  }

  /** No call of the run upsets the balance. */
  predicate StaysBalanced(v: View, calls: seq<Call>)
    requires v.r < v.Size() && v.n <= v.Size()
    decreases |calls|
  {
    |calls| == 0 || (!Unbalances(v, calls[0]) && StaysBalanced(After(v, calls[0]), calls[1..]))
  }

  /** A run of any calls on an rb.h buffer. */
  method PerformAll(rb: Rb, calls: seq<Call>) returns (seen: seq<Seen>)
    requires rb.Valid()
    modifies rb, rb.buf
    ensures rb.Valid() && rb.Abs() == AfterAll(old(rb.Abs()), calls) && seen == Trace(old(rb.Abs()), calls)
    ensures old(Balanced(rb)) && StaysBalanced(old(rb.Abs()), calls) ==> Balanced(rb)
    decreases |calls|
  {
    if |calls| == 0 { return []; }
    var first := PerformOne(rb, calls[0]);
    var rest := PerformAll(rb, calls[1..]);
    seen := [first] + rest;
  }

  method PerformOne(rb: Rb, c: Call) returns (seen: Seen)
    requires rb.Valid()
    modifies rb, rb.buf
    ensures rb.Valid() && rb.Abs() == After(old(rb.Abs()), c) && seen == SeenOf(old(rb.Abs()), c)
    ensures old(Balanced(rb)) ==> (Balanced(rb) <==> !Unbalances(old(rb.Abs()), c))
  {
    ghost var v, before := rb.Abs(), rb.stats;
    seen := Perform(rb, c);
    if Wrap64(before.write - before.read) == v.n {
      CallBalances(before, rb.stats, v, c);
      assert rb.CanRead() == rb.Abs().n;
    }
  }

  /** Bytes that a call puts behind the queue, and queue bytes that it takes off the front. */
  function Entered(v: View, c: Call): seq<byte>
    requires v.n <= v.Size()
  {
    match c
    case Write(data) => data[..Moves(v, c)]
    case AdvanceWrite(_) => v.ring[v.n..v.n + Moves(v, c)]
    case _ => []
  }

  function Left(v: View, c: Call): seq<byte>
    requires v.n <= v.Size()
  {
    if c.Reset? then v.Queue() else v.Queue()[..Min(Consumed(v, c), v.n)]
  }

  function EnteredAll(v: View, calls: seq<Call>): seq<byte>
    requires v.r < v.Size() && v.n <= v.Size()
    decreases |calls|
  {
    if |calls| == 0 then [] else Entered(v, calls[0]) + EnteredAll(After(v, calls[0]), calls[1..])
  }

  function LeftAll(v: View, calls: seq<Call>): seq<byte>
    requires v.r < v.Size() && v.n <= v.Size()
    decreases |calls|
  {
    if |calls| == 0 then [] else Left(v, calls[0]) + LeftAll(After(v, calls[0]), calls[1..])
  }

  /** One call takes off the front or puts behind the end, never both. */
  lemma CallConserves(v: View, c: Call)
    requires v.Ok()
    ensures After(v, c).Ok() && After(v, c).Size() == v.Size()
    ensures v.Queue() + Entered(v, c) == Left(v, c) + After(v, c).Queue()
    ensures c.Read? ==> SeenOf(v, c) == Bytes(Left(v, c))
  {
    var k := Moves(v, c);
    match c
    case Write(data) => PutAppends(v, data[..k]);
    case AdvanceWrite(_) =>
      assert v.ring[..v.n] + v.ring[v.n..v.n + k] == v.ring[..v.n + k];
    case Peek(_) => OthersConserve(v, c);
    case PeekAt(_, _) => OthersConserve(v, c);
    case PeekByteAt(_) => OthersConserve(v, c);
    case Spaces => OthersConserve(v, c);
    case Reset => OthersConserve(v, c);
    case ResetStats => OthersConserve(v, c);
    case _ => TakesConserve(v, c, k);
  }

  lemma TakesConserve(v: View, c: Call, k: nat)
    requires v.Ok() && (c.Read? || c.OverRead? || c.Skip? || c.OverSkip? || c.Drop?) && k == Moves(v, c)
    ensures After(v, c).Ok() && After(v, c).Size() == v.Size()
    ensures v.Queue() + Entered(v, c) == Left(v, c) + After(v, c).Queue()
    ensures c.Read? ==> SeenOf(v, c) == Bytes(Left(v, c))
  {
    TakeConserves(v, k);
  }

  lemma OthersConserve(v: View, c: Call)
    requires v.Ok() && (c.Peek? || c.PeekAt? || c.PeekByteAt? || c.Spaces? || c.Reset? || c.ResetStats?)
    ensures After(v, c).Ok() && After(v, c).Size() == v.Size()
    ensures v.Queue() + Entered(v, c) == Left(v, c) + After(v, c).Queue()
  {
    if c.Reset? {
      assert v.Restart().Queue() == [];
    } else {
      assert v.Queue()[..0] == [];
    }
  }

  lemma TakeConserves(v: View, k: nat)
    requires v.Ok() && k <= v.Size()
    ensures v.Take(k).Ok() && v.Queue() + [] == v.Queue()[..Min(k, v.n)] + v.Take(k).Queue()
    ensures k <= v.n ==> v.ring[..k] == v.Queue()[..k]
  {
    TakeRemoves(v, k);
  }

  /** Over every run: what was there and what entered is what left and what is there, in order. */
  lemma {:induction false} Conservation(v: View, calls: seq<Call>)
    requires v.Ok()
    ensures AfterAll(v, calls).Ok() && AfterAll(v, calls).Size() == v.Size()
    ensures v.Queue() + EnteredAll(v, calls) == LeftAll(v, calls) + AfterAll(v, calls).Queue()
    decreases |calls|
  {
    if |calls| == 0 {
      assert v.Queue() + [] == [] + v.Queue();
    } else {
      var c, v', rest := calls[0], After(v, calls[0]), calls[1..];
      CallConserves(v, c);
      Conservation(v', rest);
      QueuesChain(v.Queue(), Entered(v, c), Left(v, c), v'.Queue(), EnteredAll(v', rest), LeftAll(v', rest),
          AfterAll(v', rest).Queue());
    }
  }
}
