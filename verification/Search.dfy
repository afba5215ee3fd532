/**
 rb_find_byte and rb_find_byte_sequence: searching the readable bytes of a ring
 buffer without consuming them.
 */
module Search {
  import opened MachineInt
  import opened Cyclic
  import opened ByteQueue
  import opened RingBuffer
  import opened Options

  method FindByte(rb: Rb, b: byte) returns (found: bool, offset: nat)
    requires rb.Valid()
    modifies rb`stats
    ensures rb.Valid() && rb.Abs() == old(rb.Abs()) && OnlyPeeked(old(rb.stats), rb.stats)
    ensures found ==> offset < |rb.Queue()| && rb.Queue()[offset] == b && b !in rb.Queue()[..offset]
    ensures !found ==> offset == 0 && b !in rb.Queue()
  {
    var off := 0;
    var c := rb.PeekByteAt(off);
    while c.Some?
      invariant rb.Valid() && rb.Abs() == old(rb.Abs()) && OnlyPeeked(old(rb.stats), rb.stats)
      invariant off <= |rb.Queue()| && b !in rb.Queue()[..off]
      invariant c == if off < |rb.Queue()| then Some(rb.Queue()[off]) else None
      decreases |rb.Queue()| - off
    {
      if c.value == b {
        return true, off;
      }
      assert rb.Queue()[..off + 1] == rb.Queue()[..off] + [rb.Queue()[off]];
      off := off + 1;
      c := rb.PeekByteAt(off);
    }
    return false, 0;
  }

  /** How a search for a byte sequence ends; Overrun is a copy out of bounds on the way. */
  datatype Outcome = Overrun | Missing | FoundAt(offset: nat)

  predicate OccursAt(queue: seq<byte>, pattern: seq<byte>, i: nat) {
    i + |pattern| <= |queue| && queue[i..i + |pattern|] == pattern
  }

  /** The leftmost occurrence, or the certainty that there is none. */
  ghost predicate Correct(outcome: Outcome, queue: seq<byte>, pattern: seq<byte>) {
    match outcome
    case Overrun => false
    case Missing => forall i: nat :: !OccursAt(queue, pattern, i)
    case FoundAt(o) => OccursAt(queue, pattern, o) && forall i: nat :: i < o ==> !OccursAt(queue, pattern, i)
  }

  /** The search loop from offset off on, with compare as the current compare buffer. */
  function Scan(v: View, pattern: seq<byte>, compare: seq<byte>, off: nat): Outcome
    requires v.Ok() && |compare| == |pattern| > 0
    decreases v.n - off
  {
    if off >= v.n then Missing
    else if v.Queue()[off] != pattern[0] then Scan(v, pattern, compare, off + 1)
    else if v.PeekOverruns(|pattern|, off) then Overrun
    else if v.PeekCount(|pattern|, off) != |pattern| then Missing
    else
      var compare' := Patch(compare, 0, v.Peeked(|pattern|, off));
      if compare' == pattern then FoundAt(off) else Scan(v, pattern, compare', off + 1)
  }

  datatype Verdict = Here | NotHere | Nowhere | OutOfBounds

  /** How the loop goes on at off, with the compare buffer before and after. */
  ghost predicate Decides(verdict: Verdict, v: View, pattern: seq<byte>, before: seq<byte>, after: seq<byte>, off: nat)
    requires v.Ok() && |before| == |after| == |pattern| > 0
  {
    Scan(v, pattern, before, off) ==
      match verdict
      case Here => FoundAt(off)
      case Nowhere => Missing
      case OutOfBounds => Overrun
      case NotHere => Scan(v, pattern, after, off + 1)
  }

  /** Where the first byte agrees. */
  method CompareAt(rb: Rb, pattern: seq<byte>, off: nat, compareBuffer: array<byte>) returns (verdict: Verdict)
    requires rb.Valid() && compareBuffer != rb.buf && 0 < |pattern| == compareBuffer.Length
    requires off < rb.Abs().n && rb.Queue()[off] == pattern[0]
    modifies rb`stats, compareBuffer
    ensures rb.Valid() && rb.Abs() == old(rb.Abs()) && OnlyPeeked(old(rb.stats), rb.stats)
    ensures Decides(verdict, rb.Abs(), pattern, old(compareBuffer[..]), compareBuffer[..], off)
  {
    var done := rb.PeekAt(compareBuffer, 0, |pattern|, off);
    if done.None? {
      return OutOfBounds;
    } else if done.value == |pattern| {
      return if pattern == compareBuffer[..] then Here else NotHere;
    } else {
      return Nowhere;
    }
  }

  /** The body of the search loop: only where the first byte agrees are more bytes compared. */
  method CheckAt(rb: Rb, pattern: seq<byte>, off: nat, first: byte, compareBuffer: array<byte>)
    returns (verdict: Verdict)
    requires rb.Valid() && compareBuffer != rb.buf && 0 < |pattern| == compareBuffer.Length
    requires off < rb.Abs().n && rb.Queue()[off] == first
    modifies rb`stats, compareBuffer
    ensures rb.Valid() && rb.Abs() == old(rb.Abs()) && OnlyPeeked(old(rb.stats), rb.stats)
    ensures Decides(verdict, rb.Abs(), pattern, old(compareBuffer[..]), compareBuffer[..], off)
  {
    if first != pattern[0] { return NotHere; }
    verdict := CompareAt(rb, pattern, off, compareBuffer);
  }

  method FindByteSequence(rb: Rb, pattern: seq<byte>, patternOffset: nat, count: nat, compareBuffer: array<byte>)
    returns (outcome: Outcome)
    requires rb.Valid() && compareBuffer != rb.buf
    requires 0 < count == compareBuffer.Length && patternOffset + count <= |pattern|
    modifies rb`stats, compareBuffer
    ensures rb.Valid() && rb.Abs() == old(rb.Abs()) && OnlyPeeked(old(rb.stats), rb.stats)
    ensures outcome == Scan(rb.Abs(), pattern[patternOffset..patternOffset + count], old(compareBuffer[..]), 0)
  {
    var tmpPattern := pattern[patternOffset..patternOffset + count];
    ghost var view, compare := rb.Abs(), compareBuffer[..];
    ghost var goal := Scan(view, tmpPattern, compare, 0);
    var off := 0;
    var c := rb.PeekByteAt(off);
    while c.Some?
      invariant rb.Valid() && rb.Abs() == view && OnlyPeeked(old(rb.stats), rb.stats) && off <= view.n
      invariant c == if off < view.n then Some(view.Queue()[off]) else None
      invariant compareBuffer[..] == compare && goal == Scan(view, tmpPattern, compare, off)
      decreases view.n - off
    {
      var verdict := CheckAt(rb, tmpPattern, off, c.value, compareBuffer);
      match verdict {
        case Here => return FoundAt(off);
        case Nowhere => return Missing;
        case OutOfBounds => return Overrun;
        case NotHere =>
      }
      compare := compareBuffer[..];
      off := off + 1;
      c := rb.PeekByteAt(off);
    }
    return Missing;
  }

  /** A window that the search can come to compare and that rb_peek_at gets wrong. */
  predicate BadWindow(v: View, count: nat, o: nat) {
    0 < o && v.PeekSplits(count, o) && (o + count <= v.n || v.PeekOverruns(count, o))
  }

  /** Without bad windows the search is correct from any offset that had no match before it. */
  lemma {:induction false} ScanCorrect(v: View, pattern: seq<byte>, compare: seq<byte>, off: nat)
    requires v.Ok() && |compare| == |pattern| > 0 && off <= v.n
    requires forall o: nat :: !BadWindow(v, |pattern|, o)
    requires forall i: nat :: i < off ==> !OccursAt(v.Queue(), pattern, i)
    ensures Correct(Scan(v, pattern, compare, off), v.Queue(), pattern)
    decreases v.n - off
  {
    var q, k := v.Queue(), |pattern|;
    if off < v.n {
      GoodWindow(v, pattern, compare, off);
      if q[off] != pattern[0] {
        ScanCorrect(v, pattern, compare, off + 1);
      } else if off + k <= v.n && !OccursAt(q, pattern, off) {
        ScanCorrect(v, pattern, Patch(compare, 0, v.Peeked(k, off)), off + 1);
      }
    }
  }

  /** At a window that is not bad, the search decides rightly whether the pattern occurs. */
  lemma GoodWindow(v: View, pattern: seq<byte>, compare: seq<byte>, off: nat)
    requires v.Ok() && |compare| == |pattern| > 0 && off < v.n
    requires !BadWindow(v, |pattern|, off)
    ensures !v.PeekOverruns(|pattern|, off)
    ensures off + |pattern| <= v.n ==>
              (Patch(compare, 0, v.Peeked(|pattern|, off)) == pattern <==> OccursAt(v.Queue(), pattern, off))
    ensures OccursAt(v.Queue(), pattern, off) ==> v.Queue()[off] == pattern[0]
  {
    var k := |pattern|;
    if off + k <= v.n {
      PeekExact(v, k, off);
      assert v.Queue()[off..off + k][0] == v.Queue()[off];
    }
  }

  /** A queue that is zero except at one position finds nothing to compare before it. */
  lemma {:induction false} ScanSkips(v: View, pattern: seq<byte>, compare: seq<byte>, off: nat, o: nat)
    requires v.Ok() && |compare| == |pattern| > 0 && off <= o < v.n
    requires forall i :: off <= i < o ==> v.Queue()[i] != pattern[0]
    ensures Scan(v, pattern, compare, off) == Scan(v, pattern, compare, o)
    decreases o - off
  {
    if off < o {
      ScanSkips(v, pattern, compare, off + 1, o);
    }
  }

  lemma {:induction false} ScanGoesOn(v: View, pattern: seq<byte>, compare: seq<byte>, off: nat)
    requires v.Ok() && |compare| == |pattern| > 0
    ensures Scan(v, pattern, compare, off).FoundAt? ==> Scan(v, pattern, compare, off).offset >= off
    decreases v.n - off
  {
    if off < v.n && !v.PeekOverruns(|pattern|, off) && v.PeekCount(|pattern|, off) == |pattern| {
      ScanGoesOn(v, pattern, Patch(compare, 0, v.Peeked(|pattern|, off)), off + 1);
    }
    if off < v.n {
      ScanGoesOn(v, pattern, compare, off + 1);
    }
  }

  /** A comparison spoilt by stale bytes passes over the occurrence at o. */
  lemma ScanNotAt(v: View, pattern: seq<byte>, compare: seq<byte>, o: nat)
    requires v.Ok() && |compare| == |pattern| > 1 && o + |pattern| <= v.n && !v.PeekOverruns(|pattern|, o)
    requires OccursAt(v.Queue(), pattern, o)
    requires Patch(compare, 0, v.Peeked(|pattern|, o)) != pattern
    ensures !Correct(Scan(v, pattern, compare, o), v.Queue(), pattern)
  {
    ScanGoesOn(v, pattern, Patch(compare, 0, v.Peeked(|pattern|, o)), o + 1);
  }

  /** Zeros with a one at a position. */
  function OneAt(n: nat, o: nat): (s: seq<byte>)
    ensures |s| == n && forall i :: 0 <= i < n ==> s[i] == if i == o then 1 else 0
  {
    seq(n, i => if i == o then 1 else 0)
  }

  function Ones(n: nat): (s: seq<byte>)
    ensures |s| == n && forall i :: 0 <= i < n ==> s[i] == 1
  {
    seq(n, _ => 1)
  }

  lemma OneOccurs(v: View, count: nat, o: nat)
    requires v.Ok() && v.ring == OneAt(v.Size(), o) && o + count <= v.n
    ensures OccursAt(v.Queue(), OneAt(count, 0), o)
  {
    var window := v.Queue()[o..o + count];
    forall i | 0 <= i < count ensures window[i] == OneAt(count, 0)[i] {
      assert window[i] == v.ring[o + i];
    }
    assert window == OneAt(count, 0);
  }

  /** The peek at a bad window comes out short, so the last byte of the compare buffer is not the pattern's. */
  lemma LastStays(v: View, count: nat, o: nat)
    requires v.Ok() && BadWindow(v, count, o) && o + count <= v.n && !v.PeekOverruns(count, o)
    ensures count > 1 && Patch(Ones(count), 0, v.Peeked(count, o)) != OneAt(count, 0)
  {
    var compared := Patch(Ones(count), 0, v.Peeked(count, o));
    assert |v.Peeked(count, o)| == count - o < count;
    assert compared[count - 1] == 1;
    assert OneAt(count, 0)[count - 1] == 0;
  }

  /** For every bad window there are contents, a pattern and a compare buffer that defeat the search. */
  lemma ScanWrong(v: View, count: nat, o: nat)
    requires v.Ok() && count > 0 && BadWindow(v, count, o)
    ensures exists ring: seq<byte>, pattern: seq<byte>, compare: seq<byte> ::
              && |ring| == v.Size() && |pattern| == count == |compare|
              && !Correct(Scan(v.(ring := ring), pattern, compare, 0), v.(ring := ring).Queue(), pattern)
  {
    var v', pattern, compare := v.(ring := OneAt(v.Size(), o)), OneAt(count, 0), Ones(count);
    ScanSkips(v', pattern, compare, 0, o);
    if !v'.PeekOverruns(count, o) {
      OneOccurs(v', count, o);
      LastStays(v', count, o);
      ScanNotAt(v', pattern, compare, o);
    }
    assert !Correct(Scan(v', pattern, compare, 0), v'.Queue(), pattern);
  }

  /**
   rb_find_byte_sequence finds the leftmost occurrence for all contents, patterns and
   compare buffers exactly when no comparable window straddles the physical end at a
   positive offset.
   */
  lemma SearchExact(v: View, count: nat)
    requires v.Ok() && count > 0
    ensures (forall o: nat :: !BadWindow(v, count, o)) <==>
            (forall ring: seq<byte>, pattern: seq<byte>, compare: seq<byte> ::
               |ring| == v.Size() && |pattern| == count == |compare| ==>
                 Correct(Scan(v.(ring := ring), pattern, compare, 0), v.(ring := ring).Queue(), pattern))
  {
    if forall o: nat :: !BadWindow(v, count, o) {
      forall ring: seq<byte>, pattern: seq<byte>, compare: seq<byte>
        | |ring| == v.Size() && |pattern| == count == |compare|
        ensures Correct(Scan(v.(ring := ring), pattern, compare, 0), v.(ring := ring).Queue(), pattern)
      {
        assert forall o: nat :: BadWindow(v.(ring := ring), count, o) == BadWindow(v, count, o);
        ScanCorrect(v.(ring := ring), pattern, compare, 0);
      }
    } else {
      var o: nat :| BadWindow(v, count, o);
      ScanWrong(v, count, o);
    }
  }

  /** Contiguous readable space has no bad window. */
  lemma ContiguousIsGood(v: View, count: nat, o: nat)
    requires v.Ok() && v.r + v.n <= v.Size()
    ensures !BadWindow(v, count, o)
  {
  }
}
