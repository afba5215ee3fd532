/**
 Pointer arithmetic of the JACK ring buffer: a power-of-two size, a mask in place
 of the remainder, and one slot that always stays free.
 */
module JackSpace {
  import opened MachineInt

  /** The two fields that jack_ringbuffer_create derives from the requested size. */
  datatype Geometry = Geometry(size: nat, mask: nat)

  ghost predicate Valid(g: Geometry) {
    && g.mask == g.size - 1
    && 2 <= g.size <= TWO_TO_64 / 4
    && exists p: nat :: g.size == Pow2(p)
  }

  /**
   The size search of jack_ringbuffer_create. The source shifts an int, so its
   callers must ask for at most 2^30 bytes.
   */
  method Create(sz: nat) returns (g: Geometry)
    requires sz <= 0x4000_0000
    ensures Valid(g)
    ensures sz <= g.size
    ensures g.size == 2 || g.size / 2 < sz
  {
    var powerOfTwo := 1;
    while Pow2(powerOfTwo) < sz
      invariant powerOfTwo >= 1
      invariant powerOfTwo == 1 || Pow2(powerOfTwo - 1) < sz
      decreases sz - Pow2(powerOfTwo)
    {
      powerOfTwo := powerOfTwo + 1;
    }
    g := Geometry(Pow2(powerOfTwo), Pow2(powerOfTwo) - 1);
  }

  function ReadSpace(g: Geometry, w: nat, r: nat): nat {
    if w > r then w - r
    else BitAnd(Wrap64(Wrap64(w - r) + g.size), g.mask)
  }

  function WriteSpace(g: Geometry, w: nat, r: nat): nat {
    if w > r then Wrap64(BitAnd(Wrap64(Wrap64(r - w) + g.size), g.mask) - 1)
    else if w < r then (r - w) - 1
    else Wrap64(g.size - 1)
  }

  /** The two memcpy lengths for a transfer of cnt bytes that starts at slot ptr. */
  function Split(g: Geometry, ptr: nat, cnt: nat): (nat, nat) {
    var cnt2 := Wrap64(ptr + cnt);
    if cnt2 > g.size then (Wrap64(g.size - ptr), BitAnd(cnt2, g.mask)) else (cnt, 0)
  }

  function Advance(g: Geometry, ptr: nat, n: nat): nat {
    BitAnd(Wrap64(ptr + n), g.mask)
  }

  /** Masking is the remainder modulo the size. */
  lemma Mask(g: Geometry, x: nat)
    requires Valid(g)
    ensures BitAnd(x, g.mask) == x % g.size
  {
    var p: nat :| g.size == Pow2(p);
    MaskIsMod(x, p);
  }

  /** Wrapping subtraction, then adding the size, then masking: the cyclic distance from b to a. */
  lemma MaskedDifference(g: Geometry, a: nat, b: nat)
    requires Valid(g) && a < g.size && b < g.size
    ensures BitAnd(Wrap64(Wrap64(a - b) + g.size), g.mask) == if a >= b then a - b else a - b + g.size
  {
    var x := a - b + g.size;
    if a < b {
      WrapDifference(a - b, g.size);
    }
    Mask(g, x);
    if a >= b {
      ModUnique(x, 1, g.size, a - b);
    } else {
      ModUnique(x, 0, g.size, x);
    }
  }

  /** The two spaces measure the cyclic distance and always leave exactly one slot over. */
  lemma SpacesMeasureDistance(g: Geometry, w: nat, r: nat)
    requires Valid(g) && w < g.size && r < g.size
    ensures ReadSpace(g, w, r) == if w >= r then w - r else w - r + g.size
    ensures ReadSpace(g, w, r) + WriteSpace(g, w, r) == g.size - 1
  {
    MaskedDifference(g, w, r);
    MaskedDifference(g, r, w);
  }

  /** The split covers the transfer: the first part ends at or before the last slot. */
  lemma SplitCovers(g: Geometry, ptr: nat, cnt: nat)
    requires Valid(g) && ptr < g.size && cnt < g.size
    ensures var (n1, n2) := Split(g, ptr, cnt);
            && n1 + n2 == cnt
            && ptr + n1 <= g.size
            && (n2 > 0 ==> ptr + n1 == g.size && n2 < ptr)
  {
    Mask(g, ptr + cnt);
    if ptr + cnt > g.size {
      ModUnique(ptr + cnt, 1, g.size, ptr + cnt - g.size);
    }
  }

  /** Advancing by at most one lap wraps at most once. */
  lemma AdvanceWraps(g: Geometry, ptr: nat, n: nat)
    requires Valid(g) && ptr < g.size && n <= g.size
    ensures Advance(g, ptr, n) == if ptr + n < g.size then ptr + n else ptr + n - g.size
  {
    Mask(g, ptr + n);
    ModUnique(ptr, 0, g.size, ptr);
    ModStep(ptr, n, g.size);
  }

  /** Reducing modulo a multiple first does not change a remainder. */
  lemma ModOfMod(x: nat, laps: nat, m: nat, top: nat)
    requires 0 < m && 0 < top == laps * m
    ensures x % top % m == x % m
  {
    var a, b := x / top, x % top;
    var q, r := b / m, b % m;
    assert x == (a * laps + q) * m + r by {
      assert x == a * top + b && b == q * m + r;
      assert a * (laps * m) == a * laps * m;
      assert (a * laps + q) * m == a * laps * m + q * m;
    }
    ModUnique(x, a * laps + q, m, r);
  }

  lemma {:induction false} PowerGrows(p: nat, more: nat)
    requires p < more
    ensures Pow2(p) < Pow2(more)
    decreases more
  {
    if p < more - 1 {
      PowerGrows(p, more - 1);
    }
  }

  /** Every power of two up to another one divides it. */
  lemma SmallerPowerDivides(p: nat, top: nat) returns (laps: nat)
    requires Pow2(p) <= Pow2(top)
    ensures laps * Pow2(p) == Pow2(top)
  {
    SmallerExponent(p, top);
    Pow2Product(top - p, p);
    laps := Pow2(top - p);
  }

  lemma SmallerExponent(p: nat, top: nat)
    requires Pow2(p) <= Pow2(top)
    ensures p <= top
  {
    if p > top {
      PowerGrows(top, p);
    }
  }

  /** The size divides 2^64, so a sum that wraps keeps its remainder. */
  lemma WrapIsHarmless(g: Geometry, x: nat)
    requires Valid(g)
    ensures Wrap64(x) % g.size == x % g.size
  {
    var p: nat :| g.size == Pow2(p);
    TwoTo64();
    var laps := SmallerPowerDivides(p, 64);
    ModOfMod(x, laps, g.size, TWO_TO_64);
  }

  /** Advancing a pointer that mirrors a running total keeps it mirroring the total, by any count. */
  lemma AdvanceTracksTotal(g: Geometry, total: nat, n: nat)
    requires Valid(g)
    ensures Advance(g, total % g.size, n) == (total + n) % g.size
  {
    var ptr := total % g.size;
    Mask(g, Wrap64(ptr + n));
    WrapIsHarmless(g, ptr + n);
    ModOfSum(total, n, g.size);
  }
}
