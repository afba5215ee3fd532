/**
 Machine words of the hash functions as natural numbers: a w-bit word is a number below
 2^w, bitwise operations work digit by digit, and addition is modulo 2^w.
 */
module Words {
  import opened MachineInt

  datatype BitOp = AND | OR | XOR {
    predicate On(p: bool, q: bool) {
      match this
      case AND => p && q
      case OR => p || q
      case XOR => p != q
    }
  }

  /** A bitwise operation on the w lowest digits. */
  function Combine(op: BitOp, w: nat, x: nat, y: nat): (r: nat)
    ensures r < Pow2(w)
    decreases w, x, y
  {
    if w == 0 then 0
    else (if op.On(x % 2 == 1, y % 2 == 1) then 1 else 0) + 2 * Combine(op, w - 1, x / 2, y / 2)
  }

  function And(w: nat, x: nat, y: nat): nat { Combine(AND, w, x, y) }

  function Or(w: nat, x: nat, y: nat): nat { Combine(OR, w, x, y) }

  function Xor(w: nat, x: nat, y: nat): nat { Combine(XOR, w, x, y) }

  /** Bitwise complement: every digit differs from one. */
  function Not(w: nat, x: nat): nat { Combine(XOR, w, x, Pow2(w) - 1) }

  function Add(w: nat, x: nat, y: nat): (r: nat)
    ensures r < Pow2(w)
  {
    Reduce(w, x + y)
  }

  /** The low w digits of a sum. */
  function Reduce(w: nat, x: nat): (r: nat)
    ensures r < Pow2(w)
  {
    x % Pow2(w)
  }

  function Shl(w: nat, x: nat, n: nat): nat { Reduce(w, x * Pow2(n)) }
  function Shr(x: nat, n: nat): nat { Quotient(x, Pow2(n)) }

  function Quotient(x: nat, y: nat): nat
    requires y > 0
  {
    x / y
  }

  /** The rotation macros of the C sources, and the rotate instructions. */
  function Rotl(w: nat, x: nat, n: nat): nat
    requires n <= w
  {
    Or(w, Shl(w, x, n), Shr(x, w - n))
  }

  function Rotr(w: nat, x: nat, n: nat): nat
    requires n <= w
  {
    Or(w, Shl(w, x, w - n), Shr(x, n))
  }

  /** Digit i of x. */
  function Bit(x: nat, i: nat): bool
    decreases i, x
  {
    if i == 0 then x % 2 == 1 else Bit(x / 2, i - 1)
  }

  lemma LastDigit(d: nat, rest: nat)
    requires d < 2
    ensures (d + 2 * rest) % 2 == d && (d + 2 * rest) / 2 == rest
  {
  }

  lemma {:induction false} CombineBit(op: BitOp, w: nat, x: nat, y: nat, i: nat)
    requires i < w
    ensures Bit(Combine(op, w, x, y), i) == op.On(Bit(x, i), Bit(y, i))
    decreases w
  {
    var d, rest := if op.On(x % 2 == 1, y % 2 == 1) then 1 else 0, Combine(op, w - 1, x / 2, y / 2);
    assert Combine(op, w, x, y) == d + 2 * rest;
    LastDigit(d, rest);
    if i > 0 {
      CombineBit(op, w - 1, x / 2, y / 2, i - 1);
    }
  }

  lemma {:induction false} OnesBit(w: nat, i: nat)
    requires i < w
    ensures Bit(Pow2(w) - 1, i)
    decreases w
  {
    var ones := Pow2(w) - 1;
    assert ones % 2 == 1 && ones / 2 == Pow2(w - 1) - 1;
    if i > 0 {
      OnesBit(w - 1, i - 1);
    }
  }

  lemma NotBit(w: nat, x: nat, i: nat)
    requires i < w
    ensures Bit(Not(w, x), i) == !Bit(x, i)
  {
    CombineBit(XOR, w, x, Pow2(w) - 1, i);
    OnesBit(w, i);
  }

  /** Words with the same digits are the same. */
  lemma {:induction false} SameBits(w: nat, x: nat, y: nat)
    requires x < Pow2(w) && y < Pow2(w)
    requires forall i: nat :: i < w ==> Bit(x, i) == Bit(y, i)
    ensures x == y
    decreases w
  {
    if w > 0 {
      assert Bit(x, 0) == Bit(y, 0);
      forall i: nat | i < w - 1 ensures Bit(x / 2, i) == Bit(y / 2, i) {
        assert Bit(x, i + 1) == Bit(y, i + 1);
      }
      SameBits(w - 1, x / 2, y / 2);
    }
  }

  // The choice and majority functions of the standards, and the forms the sources use

  function Ch(w: nat, x: nat, y: nat, z: nat): nat { Xor(w, And(w, x, y), And(w, Not(w, x), z)) }

  function Maj(w: nat, x: nat, y: nat, z: nat): nat {
    Xor(w, Xor(w, And(w, x, y), And(w, x, z)), And(w, y, z))
  }

  function Parity(w: nat, x: nat, y: nat, z: nat): nat { Xor(w, Xor(w, x, y), z) }

  lemma ChBit(w: nat, x: nat, y: nat, z: nat, i: nat)
    requires i < w
    ensures Bit(Ch(w, x, y, z), i) == if Bit(x, i) then Bit(y, i) else Bit(z, i)
  {
    CombineBit(XOR, w, And(w, x, y), And(w, Not(w, x), z), i);
    CombineBit(AND, w, x, y, i);
    CombineBit(AND, w, Not(w, x), z, i);
    NotBit(w, x, i);
  }

  lemma MajBit(w: nat, x: nat, y: nat, z: nat, i: nat)
    requires i < w
    ensures Bit(Maj(w, x, y, z), i) == if Bit(x, i) == Bit(y, i) then Bit(x, i) else Bit(z, i)
  {
    CombineBit(XOR, w, Xor(w, And(w, x, y), And(w, x, z)), And(w, y, z), i);
    CombineBit(XOR, w, And(w, x, y), And(w, x, z), i);
    CombineBit(AND, w, x, y, i);
    CombineBit(AND, w, x, z, i);
    CombineBit(AND, w, y, z, i);
  }

  /** (x & y) | (~x & z) */
  function ChoiceByOr(w: nat, x: nat, y: nat, z: nat): nat { Or(w, And(w, x, y), And(w, Not(w, x), z)) }

  lemma ChoiceByOrIsCh(w: nat, x: nat, y: nat, z: nat)
    ensures ChoiceByOr(w, x, y, z) == Ch(w, x, y, z)
  {
    forall i: nat | i < w ensures Bit(ChoiceByOr(w, x, y, z), i) == Bit(Ch(w, x, y, z), i) {
      ChBit(w, x, y, z, i);
      CombineBit(OR, w, And(w, x, y), And(w, Not(w, x), z), i);
      CombineBit(AND, w, x, y, i);
      CombineBit(AND, w, Not(w, x), z, i);
      NotBit(w, x, i);
    }
    SameBits(w, ChoiceByOr(w, x, y, z), Ch(w, x, y, z));
  }

  /** z ^ (x & (y ^ z)) */
  function ChoiceByXor(w: nat, x: nat, y: nat, z: nat): nat { Xor(w, z, And(w, x, Xor(w, y, z))) }

  lemma ChoiceByXorIsCh(w: nat, x: nat, y: nat, z: nat)
    ensures ChoiceByXor(w, x, y, z) == Ch(w, x, y, z)
  {
    forall i: nat | i < w ensures Bit(ChoiceByXor(w, x, y, z), i) == Bit(Ch(w, x, y, z), i) {
      ChBit(w, x, y, z, i);
      CombineBit(XOR, w, z, And(w, x, Xor(w, y, z)), i);
      CombineBit(AND, w, x, Xor(w, y, z), i);
      CombineBit(XOR, w, y, z, i);
    }
    SameBits(w, ChoiceByXor(w, x, y, z), Ch(w, x, y, z));
  }

  /** (x & (y | z)) | (y & z) */
  function MajorityByOr(w: nat, x: nat, y: nat, z: nat): nat { Or(w, And(w, x, Or(w, y, z)), And(w, y, z)) }

  lemma MajorityByOrIsMaj(w: nat, x: nat, y: nat, z: nat)
    ensures MajorityByOr(w, x, y, z) == Maj(w, x, y, z)
  {
    forall i: nat | i < w ensures Bit(MajorityByOr(w, x, y, z), i) == Bit(Maj(w, x, y, z), i) {
      MajBit(w, x, y, z, i);
      CombineBit(OR, w, And(w, x, Or(w, y, z)), And(w, y, z), i);
      CombineBit(AND, w, x, Or(w, y, z), i);
      CombineBit(OR, w, y, z, i);
      CombineBit(AND, w, y, z, i);
    }
    SameBits(w, MajorityByOr(w, x, y, z), Maj(w, x, y, z));
  }

  /** Exclusive or regroups. */
  lemma XorRegroups(w: nat, x: nat, y: nat, z: nat)
    ensures Xor(w, x, Xor(w, y, z)) == Xor(w, Xor(w, x, y), z)
  {
    forall i: nat | i < w ensures Bit(Xor(w, x, Xor(w, y, z)), i) == Bit(Xor(w, Xor(w, x, y), z), i) {
      CombineBit(XOR, w, x, Xor(w, y, z), i);
      CombineBit(XOR, w, y, z, i);
      CombineBit(XOR, w, Xor(w, x, y), z, i);
      CombineBit(XOR, w, x, y, i);
    }
    SameBits(w, Xor(w, x, Xor(w, y, z)), Xor(w, Xor(w, x, y), z));
  }

  /** ((z ^ y) & x) ^ z, the order in which the assembly code chooses between y and z. */
  function ChoiceInRegister(w: nat, x: nat, y: nat, z: nat): nat { Xor(w, And(w, Xor(w, z, y), x), z) }

  lemma ChoiceInRegisterIsCh(w: nat, x: nat, y: nat, z: nat)
    ensures ChoiceInRegister(w, x, y, z) == Ch(w, x, y, z)
  {
    forall i: nat | i < w ensures Bit(ChoiceInRegister(w, x, y, z), i) == Bit(Ch(w, x, y, z), i) {
      ChBit(w, x, y, z, i);
      CombineBit(XOR, w, And(w, Xor(w, z, y), x), z, i);
      CombineBit(AND, w, Xor(w, z, y), x, i);
      CombineBit(XOR, w, z, y, i);
    }
    SameBits(w, ChoiceInRegister(w, x, y, z), Ch(w, x, y, z));
  }

  /** ((z | y) & x) | (z & y), the assembly code's majority. */
  function MajorityInRegister(w: nat, x: nat, y: nat, z: nat): nat { Or(w, And(w, Or(w, z, y), x), And(w, z, y)) }

  lemma MajorityInRegisterIsMaj(w: nat, x: nat, y: nat, z: nat)
    ensures MajorityInRegister(w, x, y, z) == Maj(w, x, y, z)
  {
    forall i: nat | i < w ensures Bit(MajorityInRegister(w, x, y, z), i) == Bit(Maj(w, x, y, z), i) {
      MajBit(w, x, y, z, i);
      CombineBit(OR, w, And(w, Or(w, z, y), x), And(w, z, y), i);
      CombineBit(AND, w, Or(w, z, y), x, i);
      CombineBit(OR, w, z, y, i);
      CombineBit(AND, w, z, y, i);
    }
    SameBits(w, MajorityInRegister(w, x, y, z), Maj(w, x, y, z));
  }

  lemma XorSwaps(w: nat, x: nat, y: nat)
    ensures Xor(w, x, y) == Xor(w, y, x)
  {
    forall i: nat | i < w ensures Bit(Xor(w, x, y), i) == Bit(Xor(w, y, x), i) {
      CombineBit(XOR, w, x, y, i);
      CombineBit(XOR, w, y, x, i);
    }
    SameBits(w, Xor(w, x, y), Xor(w, y, x));
  }

  lemma MajSwaps(w: nat, x: nat, y: nat, z: nat)
    ensures Maj(w, x, y, z) == Maj(w, x, z, y)
  {
    forall i: nat | i < w ensures Bit(Maj(w, x, y, z), i) == Bit(Maj(w, x, z, y), i) {
      MajBit(w, x, y, z, i);
      MajBit(w, x, z, y, i);
    }
    SameBits(w, Maj(w, x, y, z), Maj(w, x, z, y));
  }

  // Addition

  /** A sum may be reduced on the way or only at the end. */
  lemma ReduceSum(w: nat, a: nat, b: nat)
    ensures Reduce(w, Reduce(w, a) + b) == Reduce(w, a + b)
  {
    ModOfSum(a, b, Pow2(w));
  }

  lemma AddLeft(w: nat, x: nat, y: nat, z: nat)
    ensures Add(w, Add(w, x, y), z) == Reduce(w, x + y + z)
  {
    LastTerm(w, Add(w, x, y), x + y, z);
  }

  lemma AddRight(w: nat, x: nat, y: nat, z: nat)
    ensures Add(w, x, Add(w, y, z)) == Reduce(w, x + y + z)
  {
    ReduceSum(w, y + z, x);
  }

  /** Sums of three words regroup and reorder. */
  lemma AddRegroups(w: nat, x: nat, y: nat, z: nat)
    ensures Add(w, Add(w, x, y), z) == Add(w, x, Add(w, y, z))
    ensures Add(w, Add(w, x, y), z) == Add(w, Add(w, x, z), y)
  {
    AddLeft(w, x, y, z);
    AddRight(w, x, y, z);
    AddLeft(w, x, z, y);
  }

  /** A sum of four words with its first and last term exchanged. */
  lemma FourSwap(w: nat, a: nat, b: nat, c: nat, d: nat)
    ensures Add(w, Add(w, Add(w, a, b), c), d) == Add(w, Add(w, Add(w, d, b), c), a)
  {
    FourTerms(w, a, b, c, d);
    FourTerms(w, d, b, c, a);
  }

  lemma FourTerms(w: nat, a: nat, b: nat, c: nat, d: nat)
    ensures Add(w, Add(w, Add(w, a, b), c), d) == Reduce(w, a + b + c + d)
  {
    AddLeft(w, a, b, c);
    LastTerm(w, Add(w, Add(w, a, b), c), a + b + c, d);
  }

  lemma LastTerm(w: nat, x: nat, sum: nat, d: nat)
    requires x == Reduce(w, sum)
    ensures Add(w, x, d) == Reduce(w, sum + d)
  {
    ReduceSum(w, sum, d);
  }

  lemma FiveTerms(w: nat, a: nat, b: nat, c: nat, d: nat, e: nat)
    ensures Add(w, Add(w, Add(w, Add(w, a, b), c), d), e) == Reduce(w, a + b + c + d + e)
  {
    FourTerms(w, a, b, c, d);
    LastTerm(w, Add(w, Add(w, Add(w, a, b), c), d), a + b + c + d, e);
  }

  /** The assembly code adds the last term to the first and the others among themselves. */
  lemma FiveRegroup(w: nat, a: nat, b: nat, c: nat, d: nat, e: nat)
    ensures Add(w, Add(w, a, e), Add(w, Add(w, b, c), d)) == Add(w, Add(w, Add(w, Add(w, a, b), c), d), e)
  {
    FiveTerms(w, a, b, c, d, e);
    AddLeft(w, b, c, d);
    ReduceBoth(w, a + e, b + c + d);
  }

  lemma ReduceBoth(w: nat, x: nat, y: nat)
    ensures Add(w, Reduce(w, x), Reduce(w, y)) == Reduce(w, x + y)
  {
    ReduceSum(w, x, Reduce(w, y));
    ReduceSum(w, y, x);
  }

  /** Word-wise sum of a hash state and the working variables. */
  function AddWords(w: nat, s: seq<nat>, v: seq<nat>): (r: seq<nat>)
    requires |s| == |v|
    ensures |r| == |s|
  {
    seq(|s|, j requires 0 <= j < |s| => Add(w, s[j], v[j]))
  }

  /** Add the working variables into the state, one by one. */
  method AddToState(w: nat, state: array<nat>, v: array<nat>)
    requires state.Length == v.Length && state != v
    modifies state
    ensures state[..] == AddWords(w, old(state[..]), v[..])
  {
    ghost var before := state[..];
    for j := 0 to state.Length
      invariant forall k :: 0 <= k < state.Length ==> state[k] == if k < j then Add(w, before[k], v[k]) else before[k]
    {
      state[j] := Add(w, state[j], v[j]);
    }
  }

  /** The working variables start as a copy of the state. */
  method CopyOf(state: array<nat>) returns (v: array<nat>)
    ensures fresh(v) && v[..] == state[..]
  {
    v := new nat[state.Length];
    for j := 0 to state.Length
      invariant forall k :: 0 <= k < j ==> v[k] == state[k]
    {
      v[j] := state[j];
    }
  }
}
