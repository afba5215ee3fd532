/**
 The part of the x86-64 instruction set that the hash code uses. Registers are kept as
 two 32-bit halves; a 32-bit result clears the upper half. Memory is a set of 32-bit
 words at byte addresses. Programs are lists, so that a macro takes the code behind it
 as its last argument.
 */
module X86 {
  import opened MachineInt
  import opened Words
  import opened Loads

  const W: nat := 32

  const HALF: nat := 0x1_0000_0000

  /** Register numbers as in the instruction encoding. */
  type Reg = x: nat | x < 16

  const RAX: Reg := 0
  const RCX: Reg := 1
  const RDX: Reg := 2
  const RBX: Reg := 3
  const RSP: Reg := 4
  const RBP: Reg := 5
  const RSI: Reg := 6
  const RDI: Reg := 7

  /** An amount of bits to rotate or shift a 32-bit register by. */
  type Amount = n: nat | n <= 32

  datatype Reg64 = Reg64(hi: nat, lo: nat)

  /** Sixteen registers: the general ones, or the low halves of the xmm registers. */
  type File = s: seq<Reg64> | |s| == 16 witness seq(16, _ => Reg64(0, 0))

  datatype Machine = Machine(r: File, xmm: File, mem: map<nat, nat>) {
    /** A 32-bit load; programs are only run where the words they load exist. */
    function Mem(a: nat): nat {
      if a in mem then mem[a] else 0
    }

    /** The address disp(base). */
    function At(base: Reg, disp: nat): nat {
      Address(r[base]) + disp
    }

    /** Write a 32-bit result. */
    function Set(dst: Reg, v: nat): Machine {
      this.(r := r[dst := Reg64(0, v)])
    }
  }

  datatype Instr =
    | Load(base: Reg, disp: nat, dst: Reg)         // movl disp(base), dst
    | Store(src: Reg, base: Reg, disp: nat)        // movl src, disp(base)
    | AddLoad(base: Reg, disp: nat, dst: Reg)      // addl disp(base), dst
    | XorLoad(base: Reg, disp: nat, dst: Reg)      // xorl disp(base), dst
    | AddStore(src: Reg, base: Reg, disp: nat)     // addl src, disp(base)
    | Move(src: Reg, dst: Reg)                     // movl src, dst
    | Plus(src: Reg, dst: Reg)                     // addl src, dst
    | Bitwise(op: BitOp, src: Reg, dst: Reg)       // andl, orl, xorl
    | RotateRight(n: Amount, dst: Reg)             // rorl
    | RotateLeft(n: Amount, dst: Reg)              // roll
    | ShiftRight(n: Amount, dst: Reg)              // shrl
    | SwapBytes(dst: Reg)                          // bswapl
    | Lea(k: int, a: Reg, b: Reg, dst: Reg)        // leal k(a,b), dst
    | MoveAll(src: Reg, dst: Reg)                  // movq src, dst
    | ToXmm(src: Reg, x: Reg)                      // movq src, %xmm
    | FromXmm(x: Reg, dst: Reg)                    // movq %xmm, dst
    | Raise(bytes: nat)                            // addq n, %rsp
    | Lower(bytes: nat)                            // subq n, %rsp

  datatype Prog = Halt | Then(i: Instr, next: Prog)

  function Address(r: Reg64): nat {
    r.hi * HALF + r.lo
  }

  function Pointer(a: int): Reg64 {
    Reg64((a / HALF) % HALF, a % HALF)
  }

  /** The low 32 bits of a signed constant. */
  function Imm32(k: int): nat {
    k % HALF
  }

  function Exec(i: Instr, m: Machine): Machine {
    match i
    case Load(base, disp, dst) => m.Set(dst, m.Mem(m.At(base, disp)))
    case Store(src, base, disp) => m.(mem := m.mem[m.At(base, disp) := m.r[src].lo])
    case AddLoad(base, disp, dst) => m.Set(dst, Add(W, m.r[dst].lo, m.Mem(m.At(base, disp))))
    case XorLoad(base, disp, dst) => m.Set(dst, Xor(W, m.r[dst].lo, m.Mem(m.At(base, disp))))
    case AddStore(src, base, disp) =>
      m.(mem := m.mem[m.At(base, disp) := Add(W, m.Mem(m.At(base, disp)), m.r[src].lo)])
    case Move(src, dst) => m.Set(dst, m.r[src].lo)
    case Plus(src, dst) => m.Set(dst, Add(W, m.r[dst].lo, m.r[src].lo))
    case Bitwise(op, src, dst) => m.Set(dst, Combine(op, W, m.r[dst].lo, m.r[src].lo))
    case RotateRight(n, dst) => m.Set(dst, Rotr(W, m.r[dst].lo, n))
    case RotateLeft(n, dst) => m.Set(dst, Rotl(W, m.r[dst].lo, n))
    case ShiftRight(n, dst) => m.Set(dst, Shr(m.r[dst].lo, n))
    case SwapBytes(dst) => m.Set(dst, Bswap(m.r[dst].lo))
    case Lea(k, a, b, dst) => m.Set(dst, Add(W, Add(W, m.r[a].lo, m.r[b].lo), Imm32(k)))
    case MoveAll(src, dst) => m.(r := m.r[dst := m.r[src]])
    case ToXmm(src, x) => m.(xmm := m.xmm[x := m.r[src]])
    case FromXmm(x, dst) => m.(r := m.r[dst := m.xmm[x]])
    case Raise(n) => m.(r := m.r[RSP := Pointer(Address(m.r[RSP]) + n)])
    case Lower(n) => m.(r := m.r[RSP := Pointer(Address(m.r[RSP]) - n)])
  }

  function Run(p: Prog, m: Machine): Machine
    decreases p
  {
    match p
    case Halt => m
    case Then(i, next) => Run(next, Exec(i, m))
  }

  /** A processor that steps through a program. */
  class Cpu {
    var m: Machine

    constructor (start: Machine)
      ensures m == start
    {
      m := start;
    }

    method Execute(p: Prog)
      modifies this
      ensures m == Run(p, old(m))
    {
      var rest := p;
      while rest.Then?
        invariant Run(rest, m) == Run(p, old(m))
        decreases rest
      {
        m := Exec(rest.i, m);
        rest := rest.next;
      }
    }
  }

  // Runs of a few instructions

  /** Running p from m gets to the code k with machine m'. */
  predicate Leads(p: Prog, m: Machine, k: Prog, m': Machine) {
    Run(p, m) == Run(k, m')
  }

  lemma Run1(a: Instr, k: Prog, m: Machine)
    ensures Leads(Then(a, k), m, k, Exec(a, m))
  {
  }

  lemma Run2(a: Instr, b: Instr, k: Prog, m: Machine)
    ensures Leads(Then(a, Then(b, k)), m, k, Exec(b, Exec(a, m)))
  {
    Run1(b, k, Exec(a, m));
    Run1(a, Then(b, k), m);
  }

  lemma Run4(a: Instr, b: Instr, c: Instr, d: Instr, k: Prog, m: Machine)
    ensures Leads(Then(a, Then(b, Then(c, Then(d, k)))), m, k, Exec(d, Exec(c, Exec(b, Exec(a, m)))))
  {
    Run2(c, d, k, Exec(b, Exec(a, m)));
    Run2(a, b, Then(c, Then(d, k)), m);
  }

  // Memory

  /** The ranges [a, a + n) and [b, b + k) have no address in common. */
  predicate Apart(a: int, n: nat, b: int, k: nat) {
    a + n <= b || b + k <= a
  }

  /** The words from the address in r on. */
  ghost predicate Holds(m: Machine, r: Reg64, words: seq<nat>) {
    forall j :: 0 <= j < |words| ==> m.Mem(Address(r) + 4 * j) == words[j]
  }

  /** Words that lie outside of [lo, lo + n) are the same. */
  ghost predicate SameOutside(m: Machine, m': Machine, lo: nat, n: nat) {
    forall a: nat :: Apart(a, 4, lo, n) ==> m'.Mem(a) == m.Mem(a)
  }

  /** The sixteen words at the stack pointer hold items i - 16 to i - 1 of a sequence of words. */
  ghost predicate Ring(m: Machine, word: nat -> nat, i: nat) {
    forall j: nat {:trigger word(j)} :: i - 16 <= j < i ==> m.Mem(m.At(RSP, 4 * Slot16(j))) == word(j)
  }

  lemma RingWord(m: Machine, word: nat -> nat, i: nat, j: nat)
    requires Ring(m, word, i) && i - 16 <= j < i
    ensures m.Mem(m.At(RSP, 4 * Slot16(j))) == word(j)
  {
  }

  /** Storing the next item in its slot drops the oldest one. */
  lemma RingMoves(m: Machine, m': Machine, word: nat -> nat, i: nat)
    requires Ring(m, word, i) && m'.r[RSP] == m.r[RSP]
    requires m'.mem == m.mem[m.At(RSP, 4 * Slot16(i)) := word(i)]
    ensures Ring(m', word, i + 1) && SameOutside(m, m', m.At(RSP, 0), 64)
  {
    forall j: nat | i + 1 - 16 <= j < i + 1 ensures m'.Mem(m'.At(RSP, 4 * Slot16(j))) == word(j) {
      if j < i { SlotsDiffer(i, j); }
    }
  }

  /** Lowering the stack pointer reserves the bytes below it, and raising it again restores it. */
  lemma StackMoves(r: Reg64, n: nat)
    requires r.hi < HALF && r.lo < HALF && n <= Address(r)
    ensures Address(Pointer(Address(r) - n)) == Address(r) - n
    ensures Pointer(Address(Pointer(Address(r) - n)) + n) == r
  {
    PointerAddress(Address(r) - n);
    ModUnique(Address(r), r.hi, HALF, r.lo);
  }

  /** The stack pointer 64 bytes up. */
  function Raised(r: Reg64): Reg64 {
    Pointer(Address(r) + 64)
  }

  lemma PointerAddress(a: nat)
    requires a < TWO_TO_64
    ensures Address(Pointer(a)) == a
  {
  }
}
