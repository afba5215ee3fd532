/**
 The x86-64 SHA-1 code as a program for the machine model, and the proof that running it
 computes the compression function of the standard and restores what it saves.
 */
module Sha1X86 {
  import opened MachineInt
  import opened Renaming
  import opened Words
  import opened Loads
  import opened X86
  import Sha1

  // The macros; every one takes the code that follows it

  const R8: Reg := 8

  /** The registers of the variables a to e in round 0. */
  function Home(v: nat): (x: Reg)
    requires v < 5
  {
    if v == 0 then RAX else if v == 1 then RBX else if v == 2 then RCX else if v == 3 then RDX else RBP
  }

  /** The register that plays role j in round i. */
  function Var(i: nat, j: nat): (x: Reg)
    requires j < 5
  {
    Home(Role(5, i, j))
  }

  predicate IsVar(x: Reg) {
    x < 4 || x == RBP
  }

  /** The start of ROUND0a: a word of the block goes to the schedule buffer and into e. */
  function LoadCode(e: Reg, i: nat, next: Prog): Prog {
    Then(Load(RDI, 4 * i, RSI), Then(SwapBytes(RSI), Then(Store(RSI, RSP, 4 * Slot16(i)), Then(Plus(RSI, e), next))))
  }

  /** The end of SCHEDULE: esi is rotated, added to e and stored. */
  function RotateCode(n: Amount, slot: nat, e: Reg, next: Prog): Prog {
    Then(RotateLeft(n, RSI), Then(Plus(RSI, e), Then(Store(RSI, RSP, slot), next)))
  }

  /** SCHEDULE, with the slots it reads and the slot it writes. */
  function ScheduleCode(s3: nat, s8: nat, s14: nat, s16: nat, slot: nat, e: Reg, next: Prog): Prog {
    Then(Load(RSP, s3, RSI), Then(XorLoad(RSP, s8, RSI), Then(XorLoad(RSP, s14, RSI), Then(XorLoad(RSP, s16, RSI),
    RotateCode(1, slot, e, next)))))
  }

  function WordCode(i: nat, e: Reg, next: Prog): Prog {
    if i < 16 then LoadCode(e, i, next)
    else ScheduleCode(4 * Slot16(i - 3), 4 * Slot16(i - 8), 4 * Slot16(i - 14), 4 * Slot16(i - 16), 4 * Slot16(i), e,
        next)
  }

  /** The middle of a round macro: the function of b, c and d that esi adds. */
  function MixCode(i: nat, b: Reg, c: Reg, d: Reg, next: Prog): Prog {
    if i < 20 then
      Then(Move(c, RSI), Then(Bitwise(XOR, d, RSI), Then(Bitwise(AND, b, RSI), Then(Bitwise(XOR, d, RSI), next))))
    else if 40 <= i < 60 then
      Then(Move(c, RSI), Then(Move(c, RDI), Then(Bitwise(OR, d, RSI), Then(Bitwise(AND, b, RSI),
      Then(Bitwise(AND, d, RDI), Then(Bitwise(OR, RDI, RSI), next))))))
    else
      Then(Move(b, RSI), Then(Bitwise(XOR, c, RSI), Then(Bitwise(XOR, d, RSI), next)))
  }

  /** The constants as the round macros write them. */
  function Constant(i: nat): int {
    if i < 20 then 0x5A827999 else if i < 40 then 0x6ED9EBA1 else if i < 60 then -0x70E44324 else -0x359D3E2A
  }

  /** ROUNDTAIL. */
  function TailCode(a: Reg, b: Reg, e: Reg, k: int, next: Prog): Prog {
    Then(RotateLeft(30, b),
        Then(Lea(k, e, RSI, e), Then(Move(a, RSI), Then(RotateLeft(5, RSI), Then(Plus(RSI, e), next)))))
  }

  /** The round macro of line i. */
  function RoundCode(i: nat, next: Prog): Prog {
    WordCode(i, Var(i, 4),
        MixCode(i, Var(i, 1), Var(i, 2), Var(i, 3), TailCode(Var(i, 0), Var(i, 1), Var(i, 4), Constant(i), next)))
  }

  // What the parts of a round do

  /** A schedule word has been stored at a stack slot and added to e. */
  predicate WordAdded(m: Machine, m': Machine, slot: nat, e: Reg, x: nat) {
    && m'.mem == m.mem[m.At(RSP, slot) := x] && m'.xmm == m.xmm
    && m'.r[e].lo == Add(W, m.r[e].lo, x)
    && forall y: Reg :: y != RSI && y != e ==> m'.r[y] == m.r[y]
  }

  lemma LoadRuns(e: Reg, i: nat, next: Prog, m: Machine, b: seq<byte>) returns (m': Machine)
    requires IsVar(e) && |b| == 4 && m.Mem(m.At(RDI, 4 * i)) == LittleEndian(b)
    ensures Leads(LoadCode(e, i, next), m, next, m') && WordAdded(m, m', 4 * Slot16(i), e, BigEndian(b))
  {
    var m1 := FetchRuns(i, Then(Store(RSI, RSP, 4 * Slot16(i)), Then(Plus(RSI, e), next)), m, b);
    m' := StoreAndAddRuns(4 * Slot16(i), e, next, m1);
  }

  lemma FetchRuns(i: nat, next: Prog, m: Machine, b: seq<byte>) returns (m': Machine)
    requires |b| == 4 && m.Mem(m.At(RDI, 4 * i)) == LittleEndian(b)
    ensures Leads(Then(Load(RDI, 4 * i, RSI), Then(SwapBytes(RSI), next)), m, next, m')
    ensures m'.mem == m.mem && m'.xmm == m.xmm && m'.r[RSI].lo == BigEndian(b)
    ensures forall y: Reg :: y != RSI ==> m'.r[y] == m.r[y]
  {
    SwappedLoad(b);
    m' := Exec(SwapBytes(RSI), Exec(Load(RDI, 4 * i, RSI), m));
    Run2(Load(RDI, 4 * i, RSI), SwapBytes(RSI), next, m);
  }

  lemma StoreAndAddRuns(slot: nat, e: Reg, next: Prog, m: Machine) returns (m': Machine)
    requires IsVar(e)
    ensures Leads(Then(Store(RSI, RSP, slot), Then(Plus(RSI, e), next)), m, next, m')
    ensures WordAdded(m, m', slot, e, m.r[RSI].lo)
  {
    m' := Exec(Plus(RSI, e), Exec(Store(RSI, RSP, slot), m));
    Run2(Store(RSI, RSP, slot), Plus(RSI, e), next, m);
  }

  lemma RotateRuns(n: Amount, slot: nat, e: Reg, next: Prog, m: Machine) returns (m': Machine)
    requires IsVar(e)
    ensures Leads(RotateCode(n, slot, e, next), m, next, m')
    ensures WordAdded(m, m', slot, e, Rotl(W, m.r[RSI].lo, n))
  {
    var i1, i2, i3 := RotateLeft(n, RSI), Plus(RSI, e), Store(RSI, RSP, slot);
    m' := Exec(i3, Exec(i2, Exec(i1, m)));
    Run1(i3, next, Exec(i2, Exec(i1, m)));
    Run2(i1, i2, Then(i3, next), m);
  }

  lemma XorRuns(s3: nat, s8: nat, s14: nat, s16: nat, next: Prog, m: Machine) returns (m': Machine)
    ensures Leads(Then(Load(RSP, s3, RSI), Then(XorLoad(RSP, s8, RSI), Then(XorLoad(RSP, s14, RSI),
                  Then(XorLoad(RSP, s16, RSI), next)))), m, next, m')
    ensures m' == m.Set(RSI,
            Sha1.Mixed(m.Mem(m.At(RSP, s3)), m.Mem(m.At(RSP, s8)), m.Mem(m.At(RSP, s14)), m.Mem(m.At(RSP, s16))))
  {
    var i1, i2, i3, i4 := Load(RSP, s3, RSI), XorLoad(RSP, s8, RSI), XorLoad(RSP, s14, RSI), XorLoad(RSP, s16, RSI);
    var w3, w8, w14, w16 := m.Mem(m.At(RSP, s3)), m.Mem(m.At(RSP, s8)), m.Mem(m.At(RSP, s14)), m.Mem(m.At(RSP, s16));
    XorSets(m, w3, s8, m.Set(RSI, w3));
    XorSets(m, Xor(W, w3, w8), s14, m.Set(RSI, Xor(W, w3, w8)));
    XorSets(m, Xor(W, Xor(W, w3, w8), w14), s16, m.Set(RSI, Xor(W, Xor(W, w3, w8), w14)));
    m' := m.Set(RSI, Sha1.Mixed(w3, w8, w14, w16));
    Run4(i1, i2, i3, i4, next, m);
  }

  /** One more word in esi. */
  lemma XorSets(m: Machine, x: nat, s: nat, m1: Machine)
    requires m1 == m.Set(RSI, x)
    ensures Exec(XorLoad(RSP, s, RSI), m1) == m.Set(RSI, Xor(W, x, m.Mem(m.At(RSP, s))))
  {
    assert m1.r[RSI := Reg64(0, Xor(W, x, m.Mem(m.At(RSP, s))))]
        == m.r[RSI := Reg64(0, Xor(W, x, m.Mem(m.At(RSP, s))))];
  }

  lemma ScheduleRuns(s3: nat, s8: nat, s14: nat, s16: nat, slot: nat, e: Reg, next: Prog, m: Machine)
    returns (m': Machine)
    requires IsVar(e)
    ensures Leads(ScheduleCode(s3, s8, s14, s16, slot, e, next), m, next, m')
    ensures WordAdded(m, m', slot, e, Rotl(W, Sha1.Mixed(m.Mem(m.At(RSP, s3)), m.Mem(m.At(RSP, s8)),
                                                         m.Mem(m.At(RSP, s14)), m.Mem(m.At(RSP, s16))), 1))
  {
    var m1 := XorRuns(s3, s8, s14, s16, RotateCode(1, slot, e, next), m);
    m' := RotateRuns(1, slot, e, next, m1);
    WordAddedFrom(m, m1, m', slot, e, Rotl(W, m1.r[RSI].lo, 1));
  }

  lemma WordAddedFrom(m: Machine, m1: Machine, m': Machine, slot: nat, e: Reg, x: nat)
    requires IsVar(e) && m1 == m.Set(RSI, m1.r[RSI].lo) && WordAdded(m1, m', slot, e, x)
    ensures WordAdded(m, m', slot, e, x)
  {
  }

  /** esi holds the function of round i; edi may have changed too, but only from round 40 on. */
  predicate Mixed(m: Machine, m': Machine, i: nat, f: nat) {
    && m'.mem == m.mem && m'.xmm == m.xmm && m'.r[RSI].lo == f
    && (i < 40 ==> m'.r[RDI] == m.r[RDI])
    && forall y: Reg :: y != RSI && y != RDI ==> m'.r[y] == m.r[y]
  }

  lemma ChoiceRuns(b: Reg, c: Reg, d: Reg, next: Prog, m: Machine) returns (m': Machine)
    requires IsVar(b) && IsVar(c) && IsVar(d)
    ensures Leads(MixCode(0, b, c, d, next), m, next, m')
    ensures Mixed(m, m', 0, Ch(W, m.r[b].lo, m.r[c].lo, m.r[d].lo))
  {
    var i1, i2, i3 := Move(c, RSI), Bitwise(XOR, d, RSI), Bitwise(AND, b, RSI);
    m' := Exec(i2, Exec(i3, Exec(i2, Exec(i1, m))));
    Run4(i1, i2, i3, i2, next, m);
    XorSwaps(W, m.r[c].lo, m.r[d].lo);
    ChoiceInRegisterIsCh(W, m.r[b].lo, m.r[c].lo, m.r[d].lo);
  }

  lemma ParityRuns(b: Reg, c: Reg, d: Reg, next: Prog, m: Machine) returns (m': Machine)
    requires IsVar(b) && IsVar(c) && IsVar(d)
    ensures Leads(MixCode(20, b, c, d, next), m, next, m')
    ensures Mixed(m, m', 20, Parity(W, m.r[b].lo, m.r[c].lo, m.r[d].lo))
  {
    var i1, i2, i3 := Move(b, RSI), Bitwise(XOR, c, RSI), Bitwise(XOR, d, RSI);
    var m1 := Exec(i2, Exec(i1, m));
    Run2(i1, i2, Then(i3, next), m);
    assert m1.mem == m.mem && m1.xmm == m.xmm && forall y: Reg :: y != RSI ==> m1.r[y] == m.r[y];
    m' := Exec(i3, m1);
    Run1(i3, next, m1);
  }

  lemma MajorityRuns(b: Reg, c: Reg, d: Reg, next: Prog, m: Machine) returns (m': Machine)
    requires IsVar(b) && IsVar(c) && IsVar(d)
    ensures Leads(MixCode(40, b, c, d, next), m, next, m')
    ensures Mixed(m, m', 40, Maj(W, m.r[b].lo, m.r[c].lo, m.r[d].lo))
  {
    var i1, i2, i3, i4 := Move(c, RSI), Move(c, RDI), Bitwise(OR, d, RSI), Bitwise(AND, b, RSI);
    var i5, i6 := Bitwise(AND, d, RDI), Bitwise(OR, RDI, RSI);
    var m1 := Exec(i4, Exec(i3, Exec(i2, Exec(i1, m))));
    m' := Exec(i6, Exec(i5, m1));
    Run2(i5, i6, next, m1);
    Run4(i1, i2, i3, i4, Then(i5, Then(i6, next)), m);
    MajorityInRegisterIsMaj(W, m.r[b].lo, m.r[d].lo, m.r[c].lo);
    MajSwaps(W, m.r[b].lo, m.r[c].lo, m.r[d].lo);
  }

  lemma MixRuns(i: nat, b: Reg, c: Reg, d: Reg, next: Prog, m: Machine) returns (m': Machine)
    requires IsVar(b) && IsVar(c) && IsVar(d)
    ensures Leads(MixCode(i, b, c, d, next), m, next, m')
    ensures Mixed(m, m', i, Sha1.F(i, m.r[b].lo, m.r[c].lo, m.r[d].lo))
  {
    if i < 20 {
      m' := ChoiceRuns(b, c, d, next, m);
    } else if 40 <= i < 60 {
      m' := MajorityRuns(b, c, d, next, m);
    } else {
      m' := ParityRuns(b, c, d, next, m);
    }
  }

  /** The second half of ROUNDTAIL. */
  function TailEnd(a: Reg, e: Reg, next: Prog): Prog {
    Then(Move(a, RSI), Then(RotateLeft(5, RSI), Then(Plus(RSI, e), next)))
  }

  lemma TailEndRuns(a: Reg, e: Reg, next: Prog, m: Machine) returns (m': Machine)
    requires IsVar(a) && IsVar(e) && a != e
    ensures Leads(TailEnd(a, e, next), m, next, m') && m'.mem == m.mem && m'.xmm == m.xmm
    ensures m'.r[e].lo == Add(W, m.r[e].lo, Rotl(W, m.r[a].lo, 5))
    ensures forall y: Reg :: y != RSI && y != e ==> m'.r[y] == m.r[y]
  {
    var i1, i2, i3 := Move(a, RSI), RotateLeft(5, RSI), Plus(RSI, e);
    m' := Exec(i3, Exec(i2, Exec(i1, m)));
    Run1(i3, next, Exec(i2, Exec(i1, m)));
    Run2(i1, i2, Then(i3, next), m);
  }

  lemma TurnAndAdd(b: Reg, e: Reg, k: int, next: Prog, m: Machine) returns (m': Machine)
    requires IsVar(b) && IsVar(e) && b != e
    ensures Leads(Then(RotateLeft(30, b), Then(Lea(k, e, RSI, e), next)), m, next, m') && m'.mem == m.mem
            && m'.xmm == m.xmm
    ensures m'.r[b].lo == Rotl(W, m.r[b].lo, 30)
    ensures m'.r[e].lo == Add(W, Add(W, m.r[e].lo, m.r[RSI].lo), Imm32(k))
    ensures forall y: Reg :: y != b && y != e ==> m'.r[y] == m.r[y]
  {
    m' := Exec(Lea(k, e, RSI, e), Exec(RotateLeft(30, b), m));
    Run2(RotateLeft(30, b), Lea(k, e, RSI, e), next, m);
  }

  lemma TailRuns(a: Reg, b: Reg, e: Reg, k: int, next: Prog, m: Machine) returns (m': Machine)
    requires IsVar(a) && IsVar(b) && IsVar(e) && a != b && a != e && b != e
    ensures Leads(TailCode(a, b, e, k, next), m, next, m') && m'.mem == m.mem && m'.xmm == m.xmm
    ensures m'.r[b].lo == Rotl(W, m.r[b].lo, 30)
    ensures m'.r[e].lo == Add(W, Add(W, Add(W, m.r[e].lo, m.r[RSI].lo), Imm32(k)), Rotl(W, m.r[a].lo, 5))
    ensures forall y: Reg :: y != RSI && y != b && y != e ==> m'.r[y] == m.r[y]
  {
    var m1 := TurnAndAdd(b, e, k, TailEnd(a, e, next), m);
    m' := TailEndRuns(a, e, next, m1);
  }

  // One round

  /** The schedule word of a round, as a function of its number. */
  ghost function ScheduleOf(block: seq<byte>): nat -> nat
    requires |block| == 64
  {
    t => Sha1.Schedule(block, t)
  }

  /** The block words are where rdi points. */
  ghost predicate BlockAt(m: Machine, r: Reg64, block: seq<byte>) {
    && |block| == 64
    && forall i: nat :: i < 16 ==> m.Mem(Address(r) + 4 * i) == LittleEndian(block[4 * i..4 * i + 4])
  }

  lemma NextWord(block: seq<byte>, i: nat)
    requires |block| == 64 && i >= 16
    ensures var w := ScheduleOf(block); w(i) == Rotl(W, Sha1.Mixed(w(i - 3), w(i - 8), w(i - 14), w(i - 16)), 1)
  {
  }

  /** The start of a round puts the schedule word into its slot and adds it to e. */
  lemma WordRuns(i: nat, e: Reg, next: Prog, m: Machine, block: seq<byte>) returns (m': Machine)
    requires IsVar(e) && |block| == 64 && Ring(m, ScheduleOf(block), i) && (i < 16 ==> BlockAt(m, m.r[RDI], block))
    ensures Leads(WordCode(i, e, next), m, next, m')
    ensures WordAdded(m, m', 4 * Slot16(i), e, ScheduleOf(block)(i))
  {
    if i < 16 {
      assert m.Mem(m.At(RDI, 4 * i)) == m.Mem(Address(m.r[RDI]) + 4 * i);
      m' := LoadRuns(e, i, next, m, block[4 * i..4 * i + 4]);
    } else {
      m' := ScheduleRuns(4 * Slot16(i - 3), 4 * Slot16(i - 8), 4 * Slot16(i - 14), 4 * Slot16(i - 16), 4 * Slot16(i),
          e, next, m);
      var w := ScheduleOf(block);
      assert w(i - 3) == m.Mem(m.At(RSP, 4 * Slot16(i - 3))) && w(i - 8) == m.Mem(m.At(RSP, 4 * Slot16(i - 8)));
      assert w(i - 14) == m.Mem(m.At(RSP, 4 * Slot16(i - 14))) && w(i - 16) == m.Mem(m.At(RSP, 4 * Slot16(i - 16)));
      NextWord(block, i);
    }
  }

  /** What a round leaves in e. */
  function NewE(i: nat, a: nat, b: nat, c: nat, d: nat, e: nat, w: nat): nat {
    Add(W, Add(W, Add(W, Add(W, e, w), Sha1.F(i, b, c, d)), Imm32(Constant(i))), Rotl(W, a, 5))
  }

  /** The signed constants have the low 32 bits of the standard's constants. */
  lemma ConstantsAgree(i: nat)
    ensures Imm32(Constant(i)) == Sha1.K(i)
  {
  }

  /** The code adds the terms of the standard's sum in another order. */
  lemma NewEIsStep(i: nat, s: seq<nat>, w: nat)
    requires |s| == 5
    ensures Sha1.Step(s, i, w) == [NewE(i, s[0], s[1], s[2], s[3], s[4], w), s[0], Rotl(W, s[1], 30), s[2], s[3]]
  {
    var r, f, k := Rotl(W, s[0], 5), Sha1.F(i, s[1], s[2], s[3]), Sha1.K(i);
    ConstantsAgree(i);
    FiveTerms(W, s[4], w, f, k, r);
    FiveTerms(W, r, f, s[4], k, w);
  }

  /** Pointers in the other registers, and the block pointer while it is needed, are the same. */
  predicate KeepsRest(m: Machine, m': Machine, i: nat) {
    && m'.xmm == m.xmm && m'.r[RSP] == m.r[RSP] && (i < 40 ==> m'.r[RDI] == m.r[RDI])
    && forall x: Reg :: 8 <= x ==> m'.r[x] == m.r[x]
  }

  /** A round with any registers that are different where it matters. */
  lemma PartsRun(i: nat, a: Reg, b: Reg, c: Reg, d: Reg, e: Reg, next: Prog, m: Machine, block: seq<byte>)
    returns (m': Machine)
    requires IsVar(a) && IsVar(b) && IsVar(c) && IsVar(d) && IsVar(e)
    requires a != b && a != e && b != e && c != e && d != e && b != c && b != d
    requires |block| == 64 && Ring(m, ScheduleOf(block), i) && (i < 16 ==> BlockAt(m, m.r[RDI], block))
    ensures Leads(WordCode(i, e, MixCode(i, b, c, d, TailCode(a, b, e, Constant(i), next))), m, next, m')
    ensures m'.mem == m.mem[m.At(RSP, 4 * Slot16(i)) := ScheduleOf(block)(i)] && KeepsRest(m, m', i)
    ensures m'.r[e].lo == NewE(i, m.r[a].lo, m.r[b].lo, m.r[c].lo, m.r[d].lo, m.r[e].lo, ScheduleOf(block)(i))
    ensures m'.r[b].lo == Rotl(W, m.r[b].lo, 30)
    ensures m'.r[a] == m.r[a] && m'.r[c] == m.r[c] && m'.r[d] == m.r[d]
  {
    var tail := TailCode(a, b, e, Constant(i), next);
    var m1 := WordRuns(i, e, MixCode(i, b, c, d, tail), m, block);
    var m2 := MixRuns(i, b, c, d, tail, m1);
    m' := TailRuns(a, b, e, Constant(i), next, m2);
  }

  /** The five state variables in their registers. */
  function Vars(m: Machine): (v: seq<nat>)
    ensures |v| == 5 && forall j :: 0 <= j < 5 ==> v[j] == m.r[Home(j)].lo
  {
    [m.r[RAX].lo, m.r[RBX].lo, m.r[RCX].lo, m.r[RDX].lo, m.r[RBP].lo]
  }

  /** The state variables in role order. */
  function Roles(m: Machine, i: nat): (s: seq<nat>)
    ensures |s| == 5 && forall j :: 0 <= j < 5 ==> s[j] == m.r[Var(i, j)].lo
  {
    View(Vars(m), i)
  }

  /** Registers that play different roles are different. */
  lemma VarsDiffer(i: nat)
    ensures var a, b, c, d, e := Var(i, 0), Var(i, 1), Var(i, 2), Var(i, 3), Var(i, 4);
            && IsVar(a) && IsVar(b) && IsVar(c) && IsVar(d) && IsVar(e)
            && a != b && a != e && b != e && c != e && d != e && b != c && b != d
  {
  }

  /** The new register contents are a step of the standard in role order. */
  lemma RolesStep(i: nat, m: Machine, m': Machine, w: nat)
    requires m'.r[Var(i, 4)].lo
             == NewE(i, m.r[Var(i, 0)].lo, m.r[Var(i, 1)].lo, m.r[Var(i, 2)].lo, m.r[Var(i, 3)].lo, m.r[Var(i, 4)].lo,
                 w)
    requires m'.r[Var(i, 1)].lo == Rotl(W, m.r[Var(i, 1)].lo, 30)
    requires m'.r[Var(i, 0)] == m.r[Var(i, 0)] && m'.r[Var(i, 2)] == m.r[Var(i, 2)] && m'.r[Var(i, 3)] == m.r[Var(i, 3)]
    ensures Roles(m', i + 1) == Sha1.Step(Roles(m, i), i, w)
  {
    var s, s' := Roles(m, i), Roles(m', i);
    NewEIsStep(i, s, w);
    NextRound(Vars(m'), i);
    assert s'[0] == s[0] && s'[1] == Rotl(W, s[1], 30) && s'[2] == s[2] && s'[3] == s[3]
        && s'[4] == NewE(i, s[0], s[1], s[2], s[3], s[4], w);
  }

  /** Running one round is one round of the standard, and the schedule buffer moves on. */
  lemma RoundRuns(i: nat, next: Prog, m: Machine, block: seq<byte>) returns (m': Machine)
    requires |block| == 64 && Ring(m, ScheduleOf(block), i) && (i < 16 ==> BlockAt(m, m.r[RDI], block))
    ensures Leads(RoundCode(i, next), m, next, m')
    ensures KeepsRest(m, m', i) && Ring(m', ScheduleOf(block), i + 1) && SameOutside(m, m', m.At(RSP, 0), 64)
    ensures Roles(m', i + 1) == Sha1.Step(Roles(m, i), i, ScheduleOf(block)(i))
  {
    VarsDiffer(i);
    m' := PartsRun(i, Var(i, 0), Var(i, 1), Var(i, 2), Var(i, 3), Var(i, 4), next, m, block);
    RolesStep(i, m, m', ScheduleOf(block)(i));
    RingMoves(m, m', ScheduleOf(block), i);
  }

  // The whole routine

  /** The 80 lines of rounds from line i on. */
  function RoundsCode(i: nat, next: Prog): Prog
    requires i <= 80
    decreases 80 - i, next
  {
    if i == 80 then next else RoundCode(i, RoundsCode(i + 1, next))
  }

  function SaveCode(next: Prog): Prog {
    Then(ToXmm(RBX, 0), Then(ToXmm(RBP, 1), Then(Lower(64), Then(MoveAll(RDI, R8), next))))
  }

  function LoadStateCode(next: Prog): Prog {
    Then(Load(RDI, 0, RAX), Then(Load(RDI, 4, RBX), Then(Load(RDI, 8, RCX), Then(Load(RDI, 12, RDX),
    Then(Load(RDI, 16, RBP), Then(MoveAll(RSI, RDI), next))))))
  }

  function AddStateCode(j: nat, next: Prog): Prog
    requires j <= 5
    decreases 5 - j, next
  {
    if j == 5 then next else Then(AddStore(Home(j), R8, 4 * j), AddStateCode(j + 1, next))
  }

  function RestoreCode(next: Prog): Prog {
    Then(FromXmm(0, RBX), Then(FromXmm(1, RBP), Then(Raise(64), next)))
  }

  /** sha1_compress up to its return. */
  function Program(next: Prog): Prog {
    SaveCode(LoadStateCode(RoundsCode(0, AddStateCode(0, RestoreCode(next)))))
  }

  /** What holds before round i, given the machine m0 and the state s before the first. */
  ghost predicate During(m0: Machine, m: Machine, s: seq<nat>, block: seq<byte>, i: nat)
    requires |s| == 5 && |block| == 64 && i <= 80
  {
    && m.xmm == m0.xmm && m.r[RSP] == m0.r[RSP] && m.r[R8] == m0.r[R8] && (i <= 40 ==> m.r[RDI] == m0.r[RDI])
    && (forall x: Reg :: 8 <= x ==> m.r[x] == m0.r[x])
    && SameOutside(m0, m, m0.At(RSP, 0), 64) && Ring(m, ScheduleOf(block), i)
    && Roles(m, i) == Sha1.Rounds(s, block, i)
  }

  /** What the rounds start from. */
  ghost predicate Started(m: Machine, s: seq<nat>, block: seq<byte>) {
    && |s| == 5 && BlockAt(m, m.r[RDI], block) && Apart(m.At(RDI, 0), 64, m.At(RSP, 0), 64)
    && Apart(m.At(R8, 0), 20, m.At(RSP, 0), 64) && Holds(m, m.r[R8], s)
    && During(m, m, s, block, 0)
  }

  lemma BlockStays(m0: Machine, m: Machine, s: seq<nat>, block: seq<byte>, i: nat)
    requires i <= 40 && Started(m0, s, block) && During(m0, m, s, block, i)
    ensures BlockAt(m, m.r[RDI], block)
  {
    forall i: nat | i < 16 ensures m.Mem(Address(m.r[RDI]) + 4 * i) == m0.Mem(Address(m0.r[RDI]) + 4 * i) {
      assert Apart(Address(m0.r[RDI]) + 4 * i, 4, m0.At(RSP, 0), 64);
    }
  }

  /** One round keeps what holds before every round. */
  lemma RoundKeeps(m0: Machine, i: nat, m: Machine, m': Machine, s: seq<nat>, block: seq<byte>)
    requires i < 80 && |s| == 5 && |block| == 64 && During(m0, m, s, block, i)
    requires KeepsRest(m, m', i) && Ring(m', ScheduleOf(block), i + 1) && SameOutside(m, m', m.At(RSP, 0), 64)
    requires Roles(m', i + 1) == Sha1.Step(Roles(m, i), i, ScheduleOf(block)(i))
    ensures During(m0, m', s, block, i + 1)
  {
    assert m.At(RSP, 0) == m0.At(RSP, 0);
  }

  /** Line i of the rounds. */
  lemma LineRuns(m0: Machine, i: nat, next: Prog, m: Machine, s: seq<nat>, block: seq<byte>) returns (m': Machine)
    requires i < 80 && Started(m0, s, block) && During(m0, m, s, block, i)
    ensures Leads(RoundsCode(i, next), m, RoundsCode(i + 1, next), m') && During(m0, m', s, block, i + 1)
  {
    if i < 16 { BlockStays(m0, m, s, block, i); }
    m' := RoundRuns(i, RoundsCode(i + 1, next), m, block);
    RoundKeeps(m0, i, m, m', s, block);
  }

  /** The machines that line i may find. */
  ghost function Before(m0: Machine, s: seq<nat>, block: seq<byte>, i: nat): iset<Machine>
    requires |s| == 5 && |block| == 64 && i <= 80
  {
    iset m: Machine | Started(m0, s, block) && During(m0, m, s, block, i)
  }

  lemma NextLine(m0: Machine, i: nat, next: Prog, m: Machine, s: seq<nat>, block: seq<byte>) returns (m': Machine)
    requires |s| == 5 && |block| == 64 && i < 80 && m in Before(m0, s, block, i)
    ensures Leads(RoundsCode(i, next), m, RoundsCode(i + 1, next), m') && m' in Before(m0, s, block, i + 1)
  {
    m' := LineRuns(m0, i, next, m, s, block);
  }

  lemma {:induction false} RoundsRun(m0: Machine, i: nat, n: nat, next: Prog, m: Machine, s: seq<nat>, block: seq<byte>)
    returns (m': Machine)
    requires |s| == 5 && |block| == 64 && i <= n == 80 && m in Before(m0, s, block, i)
    ensures Leads(RoundsCode(i, next), m, next, m') && m' in Before(m0, s, block, n)
    decreases n - i
  {
    if i == n {
      m' := m;
    } else {
      var m1 := NextLine(m0, i, next, m, s, block);
      m' := RoundsRun(m0, i + 1, n, next, m1, s, block);
    }
  }

  /** What the routine may assume of its caller: its arguments, and room below the stack pointer. */
  ghost predicate Called(m: Machine, s: seq<nat>, block: seq<byte>) {
    && |s| == 5 && BlockAt(m, m.r[RSI], block) && Holds(m, m.r[RDI], s)
    && m.r[RSP].hi < HALF && m.r[RSP].lo < HALF && 64 <= m.At(RSP, 0)
    && Apart(m.At(RSI, 0), 64, m.At(RSP, 0) - 64, 64) && Apart(m.At(RDI, 0), 20, m.At(RSP, 0) - 64, 64)
  }

  /** The machine m1 after the prologue: registers saved, stack lowered, arguments and state loaded. */
  predicate Entered(m: Machine, m1: Machine) {
    && m1.mem == m.mem && m1.xmm[0] == m.r[RBX] && m1.xmm[1] == m.r[RBP]
    && m1.r[R8] == m.r[RDI] && m1.r[RDI] == m.r[RSI]
    && m1.At(RSP, 0) == m.At(RSP, 0) - 64 && Raised(m1.r[RSP]) == m.r[RSP]
    && (forall x: Reg :: 9 <= x ==> m1.r[x] == m.r[x])
    && Vars(m1) == StateAt(m, m.r[RDI])
  }

  /** The five words from the address in r on. */
  function StateAt(m: Machine, r: Reg64): (s: seq<nat>)
    ensures |s| == 5
  {
    [m.Mem(Address(r)), m.Mem(Address(r) + 4), m.Mem(Address(r) + 8), m.Mem(Address(r) + 12), m.Mem(Address(r) + 16)]
  }

  lemma SaveRuns(next: Prog, m: Machine) returns (m': Machine)
    requires m.r[RSP].hi < HALF && m.r[RSP].lo < HALF && 64 <= m.At(RSP, 0)
    ensures Leads(SaveCode(next), m, next, m') && m'.mem == m.mem
    ensures m'.xmm[0] == m.r[RBX] && m'.xmm[1] == m.r[RBP]
    ensures m'.At(RSP, 0) == m.At(RSP, 0) - 64 && Raised(m'.r[RSP]) == m.r[RSP]
    ensures m'.r[R8] == m.r[RDI] && forall x: Reg :: x != RSP && x != R8 ==> m'.r[x] == m.r[x]
  {
    var m1 := Exec(ToXmm(RBP, 1), Exec(ToXmm(RBX, 0), m));
    Run2(ToXmm(RBX, 0), ToXmm(RBP, 1), Then(Lower(64), Then(MoveAll(RDI, R8), next)), m);
    m' := LowerRuns(next, m1);
  }

  lemma LowerRuns(next: Prog, m: Machine) returns (m': Machine)
    requires m.r[RSP].hi < HALF && m.r[RSP].lo < HALF && 64 <= m.At(RSP, 0)
    ensures Leads(Then(Lower(64), Then(MoveAll(RDI, R8), next)), m, next, m') && m'.mem == m.mem && m'.xmm == m.xmm
    ensures m'.At(RSP, 0) == m.At(RSP, 0) - 64 && Raised(m'.r[RSP]) == m.r[RSP]
    ensures m'.r[R8] == m.r[RDI] && forall x: Reg :: x != RSP && x != R8 ==> m'.r[x] == m.r[x]
  {
    m' := Exec(MoveAll(RDI, R8), Exec(Lower(64), m));
    Run2(Lower(64), MoveAll(RDI, R8), next, m);
    StackMoves(m.r[RSP], 64);
  }

  lemma LoadStateRuns(next: Prog, m: Machine) returns (m': Machine)
    ensures Leads(LoadStateCode(next), m, next, m') && m'.mem == m.mem && m'.xmm == m.xmm
    ensures Vars(m') == StateAt(m, m.r[RDI]) && m'.r[RDI] == m.r[RSI] && m'.r[RSP] == m.r[RSP]
    ensures forall x: Reg :: 8 <= x ==> m'.r[x] == m.r[x]
  {
    var m1 := LoadFourRuns(Then(Load(RDI, 16, RBP), Then(MoveAll(RSI, RDI), next)), m);
    m' := Exec(MoveAll(RSI, RDI), Exec(Load(RDI, 16, RBP), m1));
    Run2(Load(RDI, 16, RBP), MoveAll(RSI, RDI), next, m1);
  }

  lemma LoadFourRuns(next: Prog, m: Machine) returns (m': Machine)
    ensures Leads(Then(Load(RDI, 0, RAX),
            Then(Load(RDI, 4, RBX), Then(Load(RDI, 8, RCX), Then(Load(RDI, 12, RDX), next)))), m, next, m')
    ensures m'.mem == m.mem && m'.xmm == m.xmm
    ensures [m'.r[RAX].lo, m'.r[RBX].lo, m'.r[RCX].lo, m'.r[RDX].lo] == StateAt(m, m.r[RDI])[..4]
    ensures forall x: Reg :: 4 <= x ==> m'.r[x] == m.r[x]
  {
    var i1, i2, i3, i4 := Load(RDI, 0, RAX), Load(RDI, 4, RBX), Load(RDI, 8, RCX), Load(RDI, 12, RDX);
    m' := Exec(i4, Exec(i3, Exec(i2, Exec(i1, m))));
    Run4(i1, i2, i3, i4, next, m);
  }

  lemma SameState(m: Machine, m1: Machine)
    requires m1.mem == m.mem && m1.r[RDI] == m.r[RDI]
    ensures StateAt(m1, m1.r[RDI]) == StateAt(m, m.r[RDI])
  {
  }

  /** The code before the first round. */
  lemma PrologueRuns(next: Prog, m: Machine) returns (m': Machine)
    requires m.r[RSP].hi < HALF && m.r[RSP].lo < HALF && 64 <= m.At(RSP, 0)
    ensures Leads(SaveCode(LoadStateCode(next)), m, next, m') && Entered(m, m')
  {
    var m1 := SaveRuns(LoadStateCode(next), m);
    SameState(m, m1);
    m' := LoadStateRuns(next, m1);
  }

  /** After the prologue the machine is ready for round 0. */
  lemma FirstRound(m: Machine, m1: Machine, s: seq<nat>, block: seq<byte>)
    requires Called(m, s, block) && Entered(m, m1)
    ensures Started(m1, s, block)
  {
    forall i: nat | i < 16 ensures m1.Mem(Address(m1.r[RDI]) + 4 * i) == m.Mem(Address(m.r[RSI]) + 4 * i) {}
    forall j | 0 <= j < 5 ensures m1.Mem(Address(m1.r[R8]) + 4 * j) == m.Mem(Address(m.r[RDI]) + 4 * j) {}
    WholeLaps(Vars(m1), 0);
    forall j | 0 <= j < 5 ensures Vars(m1)[j] == s[j] {
      assert StateAt(m, m.r[RDI])[j] == m.Mem(Address(m.r[RDI]) + 4 * j);
    }
    assert Vars(m1) == s;
  }

  lemma {:induction false} AddStateRuns(j: nat, next: Prog, m: Machine) returns (m': Machine)
    requires j <= 5
    ensures Leads(AddStateCode(j, next), m, next, m') && m'.r == m.r && m'.xmm == m.xmm
    ensures forall x :: j <= x < 5 ==> m'.Mem(m.At(R8, 4 * x)) == Add(W, m.Mem(m.At(R8, 4 * x)), Vars(m)[x])
    ensures forall a: nat :: (a < m.At(R8, 4 * j) || m.At(R8, 20) <= a) ==> m'.Mem(a) == m.Mem(a)
    decreases 5 - j
  {
    if j == 5 {
      m' := m;
    } else {
      var m1 := Exec(AddStore(Home(j), R8, 4 * j), m);
      Run1(AddStore(Home(j), R8, 4 * j), AddStateCode(j + 1, next), m);
      m' := AddStateRuns(j + 1, next, m1);
      assert m'.Mem(m.At(R8, 4 * j)) == m1.Mem(m.At(R8, 4 * j));
      forall x | j < x < 5
        ensures m'.Mem(m.At(R8, 4 * x)) == Add(W, m.Mem(m.At(R8, 4 * x)), Vars(m)[x])
      {
        assert m1.At(R8, 4 * x) == m.At(R8, 4 * x) != m.At(R8, 4 * j);
        assert m1.Mem(m.At(R8, 4 * x)) == m.Mem(m.At(R8, 4 * x));
      }
    }
  }

  /** The machine after the epilogue: state added to, registers restored, stack raised. */
  ghost predicate Left(m: Machine, m': Machine) {
    && (forall x :: 0 <= x < 5 ==> m'.Mem(m.At(R8, 4 * x)) == Add(W, m.Mem(m.At(R8, 4 * x)), Vars(m)[x]))
    && SameOutside(m, m', m.At(R8, 0), 20)
    && m'.r[RBX] == m.xmm[0] && m'.r[RBP] == m.xmm[1] && m'.r[RSP] == Raised(m.r[RSP])
    && forall x: Reg :: 8 <= x ==> m'.r[x] == m.r[x]
  }

  lemma RestoreRuns(next: Prog, m: Machine) returns (m': Machine)
    ensures Leads(RestoreCode(next), m, next, m') && m'.mem == m.mem
    ensures m'.r[RBX] == m.xmm[0] && m'.r[RBP] == m.xmm[1] && m'.r[RSP] == Raised(m.r[RSP])
    ensures forall x: Reg :: 8 <= x ==> m'.r[x] == m.r[x]
  {
    var i1, i2, i3 := FromXmm(0, RBX), FromXmm(1, RBP), Raise(64);
    m' := Exec(i3, Exec(i2, Exec(i1, m)));
    Run1(i3, next, Exec(i2, Exec(i1, m)));
    Run2(i1, i2, Then(i3, next), m);
  }

  /** The code after the last round. */
  lemma EpilogueRuns(next: Prog, m: Machine) returns (m': Machine)
    ensures Leads(AddStateCode(0, RestoreCode(next)), m, next, m') && Left(m, m')
  {
    var m1 := AddStateRuns(0, RestoreCode(next), m);
    m' := RestoreRuns(next, m1);
  }

  /**
   The compressed state is where rdi pointed, every register that the calling convention
   preserves is as it was, and so is every word that lies neither in the state nor in the
   64 bytes of scratch space below the stack pointer.
   */
  ghost predicate Compressed(m: Machine, m': Machine, s: seq<nat>, block: seq<byte>)
    requires |s| == 5 && |block| == 64
  {
    && m'.r[RBX] == m.r[RBX] && m'.r[RBP] == m.r[RBP] && m'.r[RSP] == m.r[RSP]
    && (forall x: Reg :: 9 <= x ==> m'.r[x] == m.r[x])
    && Holds(m', m.r[RDI], Sha1.Compress(s, block))
    && (forall a: nat :: Apart(a, 4, m.At(RDI, 0), 20) && Apart(a, 4, m.At(RSP, 0) - 64, 64) ==> m'.Mem(a) == m.Mem(a))
  }

  lemma StateWord(m1: Machine, m2: Machine, m': Machine, s: seq<nat>, j: nat)
    requires j < |s| == 5 && Holds(m1, m1.r[R8], s) && Apart(m1.At(R8, 0), 20, m1.At(RSP, 0), 64)
    requires m2.r[R8] == m1.r[R8] && SameOutside(m1, m2, m1.At(RSP, 0), 64) && Left(m2, m')
    ensures m'.Mem(Address(m1.r[R8]) + 4 * j) == Add(W, s[j], Vars(m2)[j])
  {
    assert m2.At(R8, 4 * j) == m1.At(R8, 4 * j);
    assert Apart(m1.At(R8, 4 * j), 4, m1.At(RSP, 0), 64);
    assert m2.Mem(m1.At(R8, 4 * j)) == m1.Mem(m1.At(R8, 4 * j));
  }

  lemma StateStored(m1: Machine, m2: Machine, m': Machine, s: seq<nat>, block: seq<byte>)
    requires Started(m1, s, block) && During(m1, m2, s, block, 80) && Left(m2, m')
    ensures Holds(m', m1.r[R8], Sha1.Compress(s, block))
  {
    WholeLaps(Vars(m2), 80);
    forall j | 0 <= j < 5 ensures m'.Mem(Address(m1.r[R8]) + 4 * j) == AddWords(W, s, Vars(m2))[j] {
      StateWord(m1, m2, m', s, j);
    }
  }

  lemma OthersKept(m: Machine, m1: Machine, m2: Machine, m': Machine)
    requires Entered(m, m1) && m2.r[R8] == m1.r[R8] && SameOutside(m1, m2, m1.At(RSP, 0), 64) && Left(m2, m')
    ensures forall a: nat ::
              Apart(a, 4, m.At(RDI, 0), 20) && Apart(a, 4, m.At(RSP, 0) - 64, 64) ==> m'.Mem(a) == m.Mem(a)
  {
    assert m2.At(R8, 0) == m.At(RDI, 0);
  }

  /** For every state and block, running the code has the effect of the standard's function. */
  lemma CompressRuns(next: Prog, m: Machine, s: seq<nat>, block: seq<byte>) returns (m': Machine)
    requires Called(m, s, block)
    ensures Leads(Program(next), m, next, m') && Compressed(m, m', s, block)
  {
    var after := AddStateCode(0, RestoreCode(next));
    var m1 := PrologueRuns(RoundsCode(0, after), m);
    FirstRound(m, m1, s, block);
    var m2 := RoundsRun(m1, 0, 80, after, m1, s, block);
    m' := EpilogueRuns(next, m2);
    StateStored(m1, m2, m', s, block);
    OthersKept(m, m1, m2, m');
  }

  /** The routine on a processor. */
  method CompressOn(cpu: Cpu, ghost s: seq<nat>, ghost block: seq<byte>)
    requires Called(cpu.m, s, block)
    modifies cpu
    ensures Compressed(old(cpu.m), cpu.m, s, block)
  {
    var halt := Halt;
    ghost var m' := CompressRuns(halt, cpu.m, s, block);
    cpu.Execute(Program(halt));
  }
}
