/**
 Byte regions as sequences: patching a stretch of memory, and reading a buffer
 cyclically from a start index.
 */
module Cyclic {
  import opened MachineInt

  /** s with data written over it from position off on. */
  function Patch<T>(s: seq<T>, off: nat, data: seq<T>): (p: seq<T>)
    requires off + |data| <= |s|
    ensures |p| == |s|
    ensures forall i :: 0 <= i < |s| ==> p[i] == if off <= i < off + |data| then data[i - off] else s[i]
  {
    s[..off] + data + s[off + |data|..]
  }

  lemma ConcatAssociates<T>(a: seq<T>, b: seq<T>, c: seq<T>)
    ensures a + (b + c) == (a + b) + c
  {
  }

  /** What was there and what entered is what left and what is there, over two stretches of a run. */
  lemma QueuesChain<T>(q: seq<T>, e: seq<T>, l: seq<T>, q': seq<T>, e': seq<T>, l': seq<T>, final: seq<T>)
    requires q + e == l + q' && q' + e' == l' + final
    ensures q + (e + e') == (l + l') + final
  {
    assert q + (e + e') == (q + e) + e';
    assert (l + q') + e' == l + (q' + e');
  }

  lemma PatchEnd<T>(s: seq<T>, off: nat, data: seq<T>, end: nat)
    requires end == off + |data| <= |s|
    ensures Patch(s, off, data)[..end] == s[..off] + data
  {
  }

  lemma PatchNothing<T>(s: seq<T>, off: nat)
    requires off <= |s|
    ensures Patch(s, off, []) == s
  {
  }

  lemma PatchAll<T>(s: seq<T>, data: seq<T>)
    requires |data| == |s|
    ensures Patch(s, 0, data) == data
  {
  }

  /** memcpy into an array. */
  method Memcpy(dst: array<byte>, off: nat, data: seq<byte>)
    requires off + |data| <= dst.Length
    modifies dst
    ensures dst[..] == Patch(old(dst[..]), off, data)
  {
    forall i | 0 <= i < |data| {
      dst[off + i] := data[i];
    }
  }

  /** The whole buffer, read cyclically from index r on. */
  function Window<T>(buf: seq<T>, r: nat): (w: seq<T>)
    requires r < |buf|
    ensures |w| == |buf|
    ensures forall i :: 0 <= i < |buf| ==> w[i] == buf[Around(r + i, |buf|)]
  {
    buf[r..] + buf[..r]
  }

  /** Writing data behind the first n bytes from r on, in one part or two. */
  function PatchCyclic<T>(buf: seq<T>, w: nat, data: seq<T>): (p: seq<T>)
    requires w < |buf| && |data| <= |buf|
    ensures |p| == |buf|
    ensures forall i :: 0 <= i < |buf| ==>
              p[i] == if w <= i < w + |data| then data[i - w]
                      else if i + |buf| < w + |data| then data[i + |buf| - w] else buf[i]
  {
    if w + |data| <= |buf| then Patch(buf, w, data)
    else Patch(Patch(buf, w, data[..|buf| - w]), 0, data[|buf| - w..])
  }

  /** A cyclic write behind the first n bytes is a plain write at position n of the window. */
  lemma WindowOfPatch<T>(buf: seq<T>, r: nat, n: nat, data: seq<T>)
    requires r < |buf| && n + |data| <= |buf|
    ensures Window(PatchCyclic(buf, Around(r + n, |buf|), data), r) == Patch(Window(buf, r), n, data)
  {
    var w := Around(r + n, |buf|);
    var left, right := Window(PatchCyclic(buf, w, data), r), Patch(Window(buf, r), n, data);
    forall i | 0 <= i < |buf| ensures left[i] == right[i] {
      assert left[i] == PatchCyclic(buf, w, data)[Around(r + i, |buf|)];
    }
  }

  /** The first k bytes of the window, fetched in one part or two. */
  lemma WindowPrefix<T>(buf: seq<T>, r: nat, k: nat)
    requires r < |buf| && k <= |buf|
    ensures Window(buf, r)[..k] == if r + k <= |buf| then buf[r..r + k] else buf[r..] + buf[..r + k - |buf|]
  {
  }

  /** Bytes i to j of the window, in one part or two. */
  lemma WindowSlice<T>(buf: seq<T>, r: nat, i: nat, j: nat)
    requires r < |buf| && i <= j <= |buf|
    ensures Window(buf, r)[i..j] ==
            if r + j <= |buf| then buf[r + i..r + j]
            else if r + i >= |buf| then buf[r + i - |buf|..r + j - |buf|]
            else buf[r + i..] + buf[..r + j - |buf|]
  {
  }

  lemma RotateTwice<T>(s: seq<T>, a: nat, b: nat)
    requires a + b <= |s|
    ensures (s[a..] + s[..a])[b..] + (s[a..] + s[..a])[..b] == s[a + b..] + s[..a + b]
  {
  }

  /** Moving the start index by k rotates the window by k. */
  lemma WindowRotates<T>(buf: seq<T>, r: nat, k: nat)
    requires r < |buf| && k <= |buf|
    ensures Window(buf, Around(r + k, |buf|)) == Window(buf, r)[k..] + Window(buf, r)[..k]
  {
  }

  /** Reading a cyclic window cyclically again adds the two start indices. */
  lemma WindowCompose<T>(buf: seq<T>, r: nat, k: nat)
    requires r < |buf| && k < |buf|
    ensures Window(Window(buf, r), k) == Window(buf, Around(r + k, |buf|))
  {
    var left, right := Window(Window(buf, r), k), Window(buf, Around(r + k, |buf|));
    forall i | 0 <= i < |buf| ensures left[i] == right[i] {
      assert left[i] == Window(buf, r)[Around(k + i, |buf|)];
    }
  }
}
