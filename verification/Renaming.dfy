/**
 The unrolled hash rounds do not shift their working variables. Round i uses the same
 variables under names rotated by i, so that only the changed ones are stored.
 */
module Renaming {
  import opened MachineInt

  /** Index of the variable that plays role j in round i, out of n variables. */
  function Role(n: nat, i: nat, j: nat): (v: nat)
    requires j < n
    ensures v < n
  {
    var shift := i % n;
    if j >= shift then j - shift else j + n - shift
  }

  /** The variables in the order of the roles they play in round i. */
  function View<T>(v: seq<T>, i: nat): (roles: seq<T>)
    requires |v| > 0
    ensures |roles| == |v|
    ensures forall j :: 0 <= j < |v| ==> roles[j] == v[Role(|v|, i, j)]
  {
    seq(|v|, j requires 0 <= j < |v| => v[Role(|v|, i, j)])
  }

  /** Storing to the variable in role r changes that role only. */
  lemma StoreInRole<T>(v: seq<T>, i: nat, r: nat, x: T)
    requires r < |v|
    ensures View(v[Role(|v|, i, r) := x], i) == View(v, i)[r := x]
  {
    var left, right := View(v[Role(|v|, i, r) := x], i), View(v, i)[r := x];
    assert |left| == |right|;
  }

  /** Going on to the next round shifts every role by one, the last one coming first. */
  lemma NextRound<T>(v: seq<T>, i: nat)
    requires |v| > 0
    ensures View(v, i + 1) == [View(v, i)[|v| - 1]] + View(v, i)[..|v| - 1]
  {
    NextShift(|v|, i);
    var left, right := View(v, i + 1), [View(v, i)[|v| - 1]] + View(v, i)[..|v| - 1];
    assert |left| == |right|;
    forall j | 0 <= j < |v| ensures left[j] == right[j] {
      assert left[j] == v[Role(|v|, i + 1, j)];
      if j > 0 { assert right[j] == View(v, i)[j - 1]; }
    }
  }

  lemma NextShift(n: nat, i: nat)
    requires n > 0
    ensures (i + 1) % n == if i % n + 1 == n then 0 else i % n + 1
  {
    ModStep(i, 1, n);
  }

  /** After whole laps of renaming every variable plays its own role again. */
  lemma WholeLaps<T>(v: seq<T>, i: nat)
    requires |v| > 0 && i % |v| == 0
    ensures View(v, i) == v
  {
  }

  /** A round that stores two of its variables: in role order, the round is over. */
  method StoreTwo<T>(v: array<T>, i: nat, r1: nat, x1: T, r2: nat, x2: T)
    requires r1 < v.Length && r2 < v.Length && r1 != r2
    modifies v
    ensures var roles := old(View(v[..], i))[r1 := x1][r2 := x2];
            View(v[..], i + 1) == [roles[v.Length - 1]] + roles[..v.Length - 1]
  {
    ghost var v0 := v[..];
    StoreInRole(v0, i, r1, x1);
    StoreInRole(v0[Role(v.Length, i, r1) := x1], i, r2, x2);
    v[Role(v.Length, i, r1)] := x1;
    v[Role(v.Length, i, r2)] := x2;
    assert v[..] == v0[Role(v.Length, i, r1) := x1][Role(v.Length, i, r2) := x2];
    NextRound(v[..], i);
  }

  /** A round that stores one of its variables. */
  method StoreOne<T>(v: array<T>, i: nat, r: nat, x: T)
    requires r < v.Length
    modifies v
    ensures var roles := old(View(v[..], i))[r := x];
            View(v[..], i + 1) == [roles[v.Length - 1]] + roles[..v.Length - 1]
  {
    ghost var v0 := v[..];
    StoreInRole(v0, i, r, x);
    v[Role(v.Length, i, r)] := x;
    assert v[..] == v0[Role(v.Length, i, r) := x];
    NextRound(v[..], i);
  }
}
