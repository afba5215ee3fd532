/**
 The x86-64 SHA-256 code as a program for the machine model, and the proof that running
 it computes the compression function of the standard and restores what it saves.
 */
module Sha256X86 {
  import opened MachineInt
  import opened Renaming
  import opened Words
  import opened Loads
  import opened X86
  import Sha2

  // The macros; every one takes the code that follows it

  /** The register that plays role j (a to h) in round i: r8d to r15d under rotating names. */
  function Var(i: nat, j: nat): (x: Reg)
    requires j < 8
    ensures 8 <= x < 16
  {
    8 + Role(8, i, j)
  }

  /** The mixing that ends with "xorl ecx, eax": three copies of a word, rotated or shifted, into eax. */
  function MixCode(n0: Amount, n1: Amount, last: Instr, next: Prog): Prog {
    Then(RotateRight(n1, RCX), Then(last, Then(RotateRight(n0, RAX),
    Then(Bitwise(XOR, RDX, RCX), Then(Bitwise(XOR, RCX, RAX), next)))))
  }

  /** A large sigma function: three rotations of one register. */
  function SigmaCode(x: Reg, n0: Amount, n1: Amount, n2: Amount, next: Prog): Prog {
    Then(Move(x, RCX), Then(Move(x, RDX), Then(Move(x, RAX), MixCode(n0, n1, RotateRight(n2, RDX), next))))
  }

  /** The schedule word, the choice and the constant go into h. */
  function ChooseCode(e: Reg, f: Reg, g: Reg, h: Reg, k: int, next: Prog): Prog {
    Then(Plus(RBX, h),
    Then(Move(g, RCX), Then(Bitwise(XOR, f, RCX), Then(Bitwise(AND, e, RCX), Then(Bitwise(XOR, g, RCX),
    Then(Lea(k, RAX, RCX, RAX), Then(Plus(RAX, h), next)))))))
  }

  /** eax and the majority go into h. */
  function MajorityCode(a: Reg, b: Reg, c: Reg, h: Reg, next: Prog): Prog {
    Then(Move(c, RCX), Then(Plus(RAX, h), Then(Move(c, RAX), Then(Bitwise(OR, b, RAX),
    Then(Bitwise(AND, b, RCX), Then(Bitwise(AND, a, RAX), Then(Bitwise(OR, RCX, RAX), Then(Plus(RAX, h), next))))))))
  }

  /** Parts 0 and 1 of ROUNDTAIL. */
  function TailStart(d: Reg, e: Reg, f: Reg, g: Reg, h: Reg, k: int, next: Prog): Prog {
    SigmaCode(e, 6, 11, 25, ChooseCode(e, f, g, h, k, Then(Plus(h, d), next)))
  }

  /** Part 2 of ROUNDTAIL. */
  function TailEnd(a: Reg, b: Reg, c: Reg, h: Reg, next: Prog): Prog {
    SigmaCode(a, 2, 13, 22, MajorityCode(a, b, c, h, next))
  }

  /** ROUNDTAIL with the arguments of round i. */
  function TailCode(i: nat, k: int, next: Prog): Prog {
    TailStart(Var(i, 3), Var(i, 4), Var(i, 5), Var(i, 6), Var(i, 7), k,
              TailEnd(Var(i, 0), Var(i, 1), Var(i, 2), Var(i, 7), next))
  }

  /** The part of ROUNDa before ROUNDTAIL: the schedule word is a word of the block. */
  function LoadCode(i: nat, next: Prog): Prog {
    Then(Load(RSI, 4 * i, RBX), Then(SwapBytes(RBX), Then(Store(RBX, RSP, 4 * Slot16(i)), next)))
  }

  /** A small sigma function of eax, added to ebx. */
  function SmallCode(n0: Amount, n1: Amount, n2: Amount, next: Prog): Prog {
    Then(Move(RAX, RCX), Then(Move(RAX, RDX), MixCode(n0, n1, ShiftRight(n2, RDX), Then(Plus(RAX, RBX), next))))
  }

  /** ROUNDb up to the first change of ebx by a small sigma function. */
  function FirstCode(s15: nat, s16: nat, s7: nat, n0: Amount, n1: Amount, n2: Amount, next: Prog): Prog {
    Then(Load(RSP, s15, RAX), Then(Load(RSP, s16, RBX), Then(AddLoad(RSP, s7, RBX), SmallCode(n0, n1, n2, next))))
  }

  /** ROUNDb from there to the store of the schedule word. */
  function SecondCode(s2: nat, slot: nat, n0: Amount, n1: Amount, n2: Amount, next: Prog): Prog {
    Then(Load(RSP, s2, RAX), SmallCode(n0, n1, n2, Then(Store(RBX, RSP, slot), next)))
  }

  /** The part of ROUNDb before ROUNDTAIL: the schedule word comes from the circular buffer. */
  function ScheduleCode(i: nat, next: Prog): Prog
    requires i >= 16
  {
    FirstCode(4 * Slot16(i - 15), 4 * Slot16(i - 16), 4 * Slot16(i - 7), 7, 18, 3,
              SecondCode(4 * Slot16(i - 2), 4 * Slot16(i), 17, 19, 10, next))
  }

  /** ROUNDa or ROUNDb with the arguments of round i. */
  function RoundCode(i: nat, next: Prog): Prog
    requires i < 64
  {
    if i < 16 then LoadCode(i, TailCode(i, Constant(i), next)) else ScheduleCode(i, TailCode(i, Constant(i), next))
  }

  // What ROUNDTAIL does

  /** Memory, xmm registers and registers from ebx on are the same, except for d and h. */
  predicate Keeps(m: Machine, m': Machine, d: Reg, h: Reg) {
    && m'.mem == m.mem && m'.xmm == m.xmm
    && forall x: Reg :: 3 <= x && x != d && x != h ==> m'.r[x] == m.r[x]
  }

  lemma MixRuns(n0: Amount, n1: Amount, last: Instr, next: Prog, m: Machine) returns (m': Machine)
    requires (last.RotateRight? || last.ShiftRight?) && last.dst == RDX
    ensures Leads(MixCode(n0, n1, last, next), m, next, m') && Keeps(m, m', RAX, RAX)
    ensures m'.r[RAX].lo == Xor(W, Rotr(W, m.r[RAX].lo, n0), Xor(W, Rotr(W, m.r[RCX].lo, n1), Exec(last, m).r[RDX].lo))
  {
    var i1, i3, i4, i5 := RotateRight(n1, RCX), RotateRight(n0, RAX), Bitwise(XOR, RDX, RCX), Bitwise(XOR, RCX, RAX);
    m' := Exec(i5, Exec(i4, Exec(i3, Exec(last, Exec(i1, m)))));
    Run1(i5, next, Exec(i4, Exec(i3, Exec(last, Exec(i1, m)))));
    Run4(i1, last, i3, i4, Then(i5, next), m);
  }

  /** Three rotations and their exclusive or, as the code groups them. */
  function Sigma(n0: Amount, n1: Amount, n2: Amount, x: nat): nat {
    Xor(W, Rotr(W, x, n0), Xor(W, Rotr(W, x, n1), Rotr(W, x, n2)))
  }

  lemma SigmaRuns(x: Reg, n0: Amount, n1: Amount, n2: Amount, next: Prog, m: Machine) returns (m': Machine)
    requires 3 <= x
    ensures Leads(SigmaCode(x, n0, n1, n2, next), m, next, m') && Keeps(m, m', RAX, RAX)
    ensures m'.r[RAX].lo == Sigma(n0, n1, n2, m.r[x].lo)
  {
    var m1 := CopiesRun(x, MixCode(n0, n1, RotateRight(n2, RDX), next), m);
    m' := MixRuns(n0, n1, RotateRight(n2, RDX), next, m1);
  }

  lemma CopiesRun(x: Reg, next: Prog, m: Machine) returns (m': Machine)
    requires 3 <= x
    ensures Leads(Then(Move(x, RCX), Then(Move(x, RDX), Then(Move(x, RAX), next))), m, next, m')
            && Keeps(m, m', RAX, RAX)
    ensures m'.r[RAX].lo == m'.r[RCX].lo == m'.r[RDX].lo == m.r[x].lo
  {
    var m1 := Exec(Move(x, RDX), Exec(Move(x, RCX), m));
    m' := Exec(Move(x, RAX), m1);
    Run1(Move(x, RAX), next, m1);
    Run2(Move(x, RCX), Move(x, RDX), Then(Move(x, RAX), next), m);
  }

  /** h grows by the schedule word in ebx, then by the sum of eax, the choice and the constant. */
  lemma ChooseRuns(e: Reg, f: Reg, g: Reg, h: Reg, k: int, next: Prog, m: Machine) returns (m': Machine)
    requires 8 <= e && 8 <= f && 8 <= g && 8 <= h && h != e && h != f && h != g
    ensures Leads(ChooseCode(e, f, g, h, k, next), m, next, m') && Keeps(m, m', h, h)
    ensures m'.r[h].lo == Add(W, Add(W, m.r[h].lo, m.r[RBX].lo),
                              Add(W, Add(W, m.r[RAX].lo, ChoiceInRegister(W, m.r[e].lo, m.r[f].lo, m.r[g].lo)),
                                  Imm32(k)))
  {
    var rest := Then(Lea(k, RAX, RCX, RAX), Then(Plus(RAX, h), next));
    var m1 := Exec(Plus(RBX, h), m);
    var m2 := ChoiceRuns(e, f, g, rest, m1);
    m' := Exec(Plus(RAX, h), Exec(Lea(k, RAX, RCX, RAX), m2));
    Run2(Lea(k, RAX, RCX, RAX), Plus(RAX, h), next, m2);
    Run1(Plus(RBX, h), Then(Move(g, RCX),
        Then(Bitwise(XOR, f, RCX), Then(Bitwise(AND, e, RCX), Then(Bitwise(XOR, g, RCX), rest)))), m);
  }

  /** ecx holds the choice. */
  lemma ChoiceRuns(e: Reg, f: Reg, g: Reg, next: Prog, m: Machine) returns (m': Machine)
    requires 8 <= e && 8 <= f && 8 <= g
    ensures Leads(Then(Move(g, RCX),
            Then(Bitwise(XOR, f, RCX), Then(Bitwise(AND, e, RCX), Then(Bitwise(XOR, g, RCX), next)))), m, next, m')
    ensures m' == m.Set(RCX, ChoiceInRegister(W, m.r[e].lo, m.r[f].lo, m.r[g].lo))
  {
    m' := Exec(Bitwise(XOR, g, RCX), Exec(Bitwise(AND, e, RCX), Exec(Bitwise(XOR, f, RCX), Exec(Move(g, RCX), m))));
    Run4(Move(g, RCX), Bitwise(XOR, f, RCX), Bitwise(AND, e, RCX), Bitwise(XOR, g, RCX), next, m);
  }

  /** h grows by eax and by the majority. */
  lemma MajorityRuns(a: Reg, b: Reg, c: Reg, h: Reg, next: Prog, m: Machine) returns (m': Machine)
    requires 8 <= a && 8 <= b && 8 <= c && 8 <= h && h != a && h != b && h != c
    ensures Leads(MajorityCode(a, b, c, h, next), m, next, m') && Keeps(m, m', h, h)
    ensures m'.r[h].lo == Add(W, Add(W, m.r[h].lo, m.r[RAX].lo), MajorityInRegister(W, m.r[a].lo, m.r[b].lo, m.r[c].lo))
  {
    var both := Then(Bitwise(OR, RCX, RAX), Then(Plus(RAX, h), next));
    var m1 := EitherRuns(b, c, h, Then(Bitwise(AND, b, RCX), Then(Bitwise(AND, a, RAX), both)), m);
    m' := BothRuns(a, b, h, next, m1);
  }

  lemma EitherRuns(b: Reg, c: Reg, h: Reg, next: Prog, m: Machine) returns (m': Machine)
    requires 8 <= b && 8 <= c && 8 <= h && h != b && h != c
    ensures Leads(Then(Move(c, RCX), Then(Plus(RAX, h), Then(Move(c, RAX), Then(Bitwise(OR, b, RAX), next)))), m,
            next, m')
    ensures Keeps(m, m', h, h) && m'.r[h].lo == Add(W, m.r[h].lo, m.r[RAX].lo)
    ensures m'.r[RCX].lo == m.r[c].lo && m'.r[RAX].lo == Or(W, m.r[c].lo, m.r[b].lo)
  {
    var m1 := Exec(Plus(RAX, h), Exec(Move(c, RCX), m));
    Run2(Move(c, RCX), Plus(RAX, h), Then(Move(c, RAX), Then(Bitwise(OR, b, RAX), next)), m);
    assert m1.r[RCX].lo == m.r[c].lo && m1.r[c] == m.r[c] && m1.r[b] == m.r[b];
    m' := Exec(Bitwise(OR, b, RAX), Exec(Move(c, RAX), m1));
    Run2(Move(c, RAX), Bitwise(OR, b, RAX), next, m1);
  }

  lemma BothRuns(a: Reg, b: Reg, h: Reg, next: Prog, m: Machine) returns (m': Machine)
    requires 8 <= a && 8 <= b && 8 <= h && h != a && h != b
    ensures Leads(Then(Bitwise(AND, b, RCX),
            Then(Bitwise(AND, a, RAX), Then(Bitwise(OR, RCX, RAX), Then(Plus(RAX, h), next)))), m, next, m')
    ensures Keeps(m, m', h, h)
    ensures m'.r[h].lo == Add(W, m.r[h].lo, Or(W, And(W, m.r[RAX].lo, m.r[a].lo), And(W, m.r[RCX].lo, m.r[b].lo)))
  {
    var m1 := Exec(Bitwise(AND, a, RAX), Exec(Bitwise(AND, b, RCX), m));
    Run2(Bitwise(AND, b, RCX), Bitwise(AND, a, RAX), Then(Bitwise(OR, RCX, RAX), Then(Plus(RAX, h), next)), m);
    assert m1.r[h] == m.r[h] && m1.r[RCX].lo == And(W, m.r[RCX].lo, m.r[b].lo)
        && m1.r[RAX].lo == And(W, m.r[RAX].lo, m.r[a].lo);
    m' := Exec(Plus(RAX, h), Exec(Bitwise(OR, RCX, RAX), m1));
    Run2(Bitwise(OR, RCX, RAX), Plus(RAX, h), next, m1);
  }

  /** What ROUNDTAIL has made of h when it changes d. */
  function TailSum(e: nat, f: nat, g: nat, h: nat, k: nat, w: nat): nat {
    SumWith((6, 11, 25), e, f, g, h, k, w)
  }

  function SumWith(n: (Amount, Amount, Amount), e: nat, f: nat, g: nat, h: nat, k: nat, w: nat): nat {
    Add(W, Add(W, h, w), Add(W, Add(W, Sigma(n.0, n.1, n.2, e), ChoiceInRegister(W, e, f, g)), k))
  }

  /** What ROUNDTAIL makes of h after that. */
  function TailFinal(a: nat, b: nat, c: nat, t: nat): nat {
    Add(W, Add(W, t, Sigma(2, 13, 22, a)), MajorityInRegister(W, a, b, c))
  }

  lemma TailStartRuns(d: Reg, e: Reg, f: Reg, g: Reg, h: Reg, k: int, next: Prog, m: Machine) returns (m': Machine)
    requires 8 <= d && 8 <= e && 8 <= f && 8 <= g && 8 <= h && h != d && h != e && h != f && h != g
    ensures Leads(TailStart(d, e, f, g, h, k, next), m, next, m') && Keeps(m, m', d, h)
    ensures m'.r[h].lo == TailSum(m.r[e].lo, m.r[f].lo, m.r[g].lo, m.r[h].lo, Imm32(k), m.r[RBX].lo)
    ensures m'.r[d].lo == Add(W, m.r[d].lo, m'.r[h].lo)
  {
    var m1 := SumRuns(e, f, g, h, k, (6, 11, 25), Then(Plus(h, d), next), m);
    m' := AddRuns(h, d, next, m1);
    KeepsTwice(m, m1, m', d, h);
  }

  lemma KeepsTwice(m: Machine, m1: Machine, m': Machine, d: Reg, h: Reg)
    requires 8 <= d && 8 <= h && d != h && Keeps(m, m1, h, h) && Keeps(m1, m', d, d)
    ensures Keeps(m, m', d, h) && m'.r[h] == m1.r[h] && m1.r[d] == m.r[d]
  {
  }

  lemma SumRuns(e: Reg, f: Reg, g: Reg, h: Reg, k: int, n: (Amount, Amount, Amount), next: Prog, m: Machine)
    returns (m': Machine)
    requires 8 <= e && 8 <= f && 8 <= g && 8 <= h && h != e && h != f && h != g
    ensures Leads(SigmaCode(e, n.0, n.1, n.2, ChooseCode(e, f, g, h, k, next)), m, next, m') && Keeps(m, m', h, h)
    ensures m'.r[h].lo == SumWith(n, m.r[e].lo, m.r[f].lo, m.r[g].lo, m.r[h].lo, Imm32(k), m.r[RBX].lo)
  {
    var m1 := SigmaRuns(e, n.0, n.1, n.2, ChooseCode(e, f, g, h, k, next), m);
    m' := ChooseRuns(e, f, g, h, k, next, m1);
  }

  lemma AddRuns(h: Reg, d: Reg, next: Prog, m: Machine) returns (m': Machine)
    requires 8 <= d && 8 <= h && h != d
    ensures Leads(Then(Plus(h, d), next), m, next, m') && Keeps(m, m', d, d)
    ensures m'.r[d].lo == Add(W, m.r[d].lo, m.r[h].lo)
  {
    m' := Exec(Plus(h, d), m);
    Run1(Plus(h, d), next, m);
  }

  lemma TailEndRuns(a: Reg, b: Reg, c: Reg, h: Reg, next: Prog, m: Machine) returns (m': Machine)
    requires 8 <= a && 8 <= b && 8 <= c && 8 <= h && h != a && h != b && h != c
    ensures Leads(TailEnd(a, b, c, h, next), m, next, m') && Keeps(m, m', h, h)
    ensures m'.r[h].lo == TailFinal(m.r[a].lo, m.r[b].lo, m.r[c].lo, m.r[h].lo)
  {
    var m1 := SigmaRuns(a, 2, 13, 22, MajorityCode(a, b, c, h, next), m);
    m' := MajorityRuns(a, b, c, h, next, m1);
  }

  /** The eight state variables in their registers. */
  function Vars(m: Machine): (v: seq<nat>)
    ensures |v| == 8 && forall j :: 0 <= j < 8 ==> v[j] == m.r[8 + j].lo
  {
    seq(8, j requires 0 <= j < 8 => m.r[8 + j].lo)
  }

  /** The state variables in role order. */
  function Roles(m: Machine, i: nat): (s: seq<nat>)
    ensures |s| == 8 && forall j :: 0 <= j < 8 ==> s[j] == m.r[Var(i, j)].lo
  {
    View(Vars(m), i)
  }

  /** Registers that play different roles are different. */
  lemma VarsDiffer(i: nat, j: nat, j': nat)
    requires j < 8 && j' < 8 && j != j'
    ensures Var(i, j) != Var(i, j')
  {
  }

  /** The values ROUNDTAIL leaves in d and h are those of a step of the standard. */
  lemma TailValues(s: seq<nat>, k: nat, w: nat)
    requires |s| == 8
    ensures var p := Sha2.Sha256(); var t := TailSum(s[4], s[5], s[6], s[7], k, w);
            Sha2.Step(p, s, k, w)
                == [TailFinal(s[0], s[1], s[2], t), s[0], s[1], s[2], Add(W, s[3], t), s[4], s[5], s[6]]
  {
    XorRegroups(W, Rotr(W, s[4], 6), Rotr(W, s[4], 11), Rotr(W, s[4], 25));
    XorRegroups(W, Rotr(W, s[0], 2), Rotr(W, s[0], 13), Rotr(W, s[0], 22));
    ChoiceInRegisterIsCh(W, s[4], s[5], s[6]);
    MajorityInRegisterIsMaj(W, s[0], s[1], s[2]);
    var p := Sha2.Sha256();
    FiveRegroup(W, s[7], Sha2.BigSigma(p, p.bigE, s[4]), Ch(W, s[4], s[5], s[6]), k, w);
    AddRegroups(W, Sha2.T1(p, s, k, w), Sha2.BigSigma(p, p.bigA, s[0]), Maj(W, s[0], s[1], s[2]));
  }

  /** ROUNDTAIL with any arguments that are different where it matters. */
  lemma TailPartsRun(a: Reg, b: Reg, c: Reg, d: Reg, e: Reg, f: Reg, g: Reg, h: Reg, k: int, next: Prog, m: Machine)
    returns (m': Machine)
    requires 8 <= a && 8 <= b && 8 <= c && 8 <= d && 8 <= e && 8 <= f && 8 <= g && 8 <= h
    requires h != a && h != b && h != c && h != d && h != e && h != f && h != g && d != a && d != b && d != c
    ensures Leads(TailStart(d, e, f, g, h, k, TailEnd(a, b, c, h, next)), m, next, m') && Keeps(m, m', d, h)
    ensures var t := TailSum(m.r[e].lo, m.r[f].lo, m.r[g].lo, m.r[h].lo, Imm32(k), m.r[RBX].lo);
            && m'.r[h].lo == TailFinal(m.r[a].lo, m.r[b].lo, m.r[c].lo, t)
            && m'.r[d].lo == Add(W, m.r[d].lo, t)
  {
    var m1 := TailStartRuns(d, e, f, g, h, k, TailEnd(a, b, c, h, next), m);
    m' := TailEndRuns(a, b, c, h, next, m1);
  }

  /** ROUNDTAIL in role order. */
  lemma TailEffect(i: nat, k: int, next: Prog, m: Machine) returns (m': Machine)
    ensures Leads(TailCode(i, k, next), m, next, m') && Keeps(m, m', Var(i, 3), Var(i, 7))
    ensures var s := Roles(m, i); var t := TailSum(s[4], s[5], s[6], s[7], Imm32(k), m.r[RBX].lo);
            m'.r[Var(i, 7)].lo == TailFinal(s[0], s[1], s[2], t) && m'.r[Var(i, 3)].lo == Add(W, s[3], t)
  {
    forall j | 0 <= j < 7 ensures Var(i, j) != Var(i, 7) { VarsDiffer(i, j, 7); }
    forall j | 0 <= j < 3 ensures Var(i, j) != Var(i, 3) { VarsDiffer(i, j, 3); }
    m' := TailPartsRun(Var(i, 0), Var(i, 1), Var(i, 2), Var(i, 3), Var(i, 4), Var(i, 5), Var(i, 6), Var(i, 7), k,
        next, m);
  }

  /** Running ROUNDTAIL of round i is one step of the standard, in role order. */
  lemma TailRuns(i: nat, k: int, next: Prog, m: Machine) returns (m': Machine)
    ensures Leads(TailCode(i, k, next), m, next, m') && KeepsRest(m, m') && m'.mem == m.mem
    ensures Roles(m', i + 1) == Sha2.Step(Sha2.Sha256(), Roles(m, i), Imm32(k), m.r[RBX].lo)
  {
    m' := TailEffect(i, k, next, m);
    RolesStep(i, m, m', Imm32(k), m.r[RBX].lo);
  }

  /** Eight variables on their way to the next round. */
  lemma EightShift(v: seq<nat>, i: nat)
    requires |v| == 8
    ensures var s := View(v, i); View(v, i + 1) == [s[7], s[0], s[1], s[2], s[3], s[4], s[5], s[6]]
  {
    NextRound(v, i);
    var s := View(v, i);
    assert s[..7] == [s[0], s[1], s[2], s[3], s[4], s[5], s[6]];
  }

  /** The new register contents are a step of the standard in role order. */
  lemma RolesStep(i: nat, m: Machine, m': Machine, k: nat, w: nat)
    requires Keeps(m, m', Var(i, 3), Var(i, 7))
    requires var s := Roles(m, i); var t := TailSum(s[4], s[5], s[6], s[7], k, w);
             m'.r[Var(i, 7)].lo == TailFinal(s[0], s[1], s[2], t) && m'.r[Var(i, 3)].lo == Add(W, s[3], t)
    ensures Roles(m', i + 1) == Sha2.Step(Sha2.Sha256(), Roles(m, i), k, w)
  {
    var s, s' := Roles(m, i), Roles(m', i);
    TailValues(s, k, w);
    EightShift(Vars(m'), i);
    forall j | 0 <= j < 7 && j != 3 ensures s'[j] == s[j] {
      VarsDiffer(i, j, 3);
      VarsDiffer(i, j, 7);
    }
    var t := TailSum(s[4], s[5], s[6], s[7], k, w);
    assert s'[7] == TailFinal(s[0], s[1], s[2], t) && s'[3] == Add(W, s[3], t);
  }

  /** Pointers and xmm registers are the same. */
  predicate KeepsRest(m: Machine, m': Machine) {
    && m'.xmm == m.xmm
    && forall x: Reg :: 4 <= x < 8 ==> m'.r[x] == m.r[x]
  }

  // What the schedule code does

  /** The schedule word of a round, as a function of its number. */
  ghost function ScheduleOf(block: seq<byte>): nat -> nat
    requires |block| == 64
  {
    t => Sha2.Schedule(Sha2.Sha256(), block, t)
  }

  /** The small sigma functions, as the code groups them. */
  function Small(n0: Amount, n1: Amount, n2: Amount, x: nat): nat {
    Xor(W, Rotr(W, x, n0), Xor(W, Rotr(W, x, n1), Shr(x, n2)))
  }

  lemma SmallRuns(n0: Amount, n1: Amount, n2: Amount, next: Prog, m: Machine) returns (m': Machine)
    ensures Leads(SmallCode(n0, n1, n2, next), m, next, m') && Keeps(m, m', RBX, RBX)
    ensures m'.r[RBX].lo == Add(W, m.r[RBX].lo, Small(n0, n1, n2, m.r[RAX].lo))
  {
    var sum := Then(Plus(RAX, RBX), next);
    var m1 := SpreadRuns(MixCode(n0, n1, ShiftRight(n2, RDX), sum), m);
    var m2 := MixRuns(n0, n1, ShiftRight(n2, RDX), sum, m1);
    assert m2.r[RBX] == m.r[RBX];
    m' := Exec(Plus(RAX, RBX), m2);
    Run1(Plus(RAX, RBX), next, m2);
  }

  lemma SpreadRuns(next: Prog, m: Machine) returns (m': Machine)
    ensures Leads(Then(Move(RAX, RCX), Then(Move(RAX, RDX), next)), m, next, m') && Keeps(m, m', RAX, RAX)
    ensures m'.r[RAX] == m.r[RAX] && m'.r[RCX].lo == m'.r[RDX].lo == m.r[RAX].lo
  {
    m' := Exec(Move(RAX, RDX), Exec(Move(RAX, RCX), m));
    Run2(Move(RAX, RCX), Move(RAX, RDX), next, m);
  }

  /** A word has been stored at a stack slot and is still in ebx; nothing else but temporaries changed. */
  predicate Stored(m: Machine, m': Machine, slot: nat, x: nat) {
    && m'.mem == m.mem[m.At(RSP, slot) := x]
    && m'.xmm == m.xmm && m'.r[RBX].lo == x
    && forall y: Reg :: 4 <= y ==> m'.r[y] == m.r[y]
  }

  lemma LoadRuns(i: nat, next: Prog, m: Machine, b: seq<byte>) returns (m': Machine)
    requires |b| == 4 && m.Mem(m.At(RSI, 4 * i)) == LittleEndian(b)
    ensures Leads(LoadCode(i, next), m, next, m') && Stored(m, m', 4 * Slot16(i), BigEndian(b))
  {
    SwappedLoad(b);
    var store := Store(RBX, RSP, 4 * Slot16(i));
    var m1 := Exec(SwapBytes(RBX), Exec(Load(RSI, 4 * i, RBX), m));
    m' := Exec(store, m1);
    Run1(store, next, m1);
    Run2(Load(RSI, 4 * i, RBX), SwapBytes(RBX), Then(store, next), m);
  }

  lemma FirstRuns(s15: nat, s16: nat, s7: nat, n0: Amount, n1: Amount, n2: Amount, next: Prog, m: Machine)
    returns (m': Machine)
    ensures Leads(FirstCode(s15, s16, s7, n0, n1, n2, next), m, next, m') && Keeps(m, m', RBX, RBX)
    ensures m'.r[RBX].lo == Add(W, Add(W, m.Mem(m.At(RSP, s16)), m.Mem(m.At(RSP, s7))),
            Small(n0, n1, n2, m.Mem(m.At(RSP, s15))))
  {
    var m1 := WordsLoaded(s15, s16, s7, SmallCode(n0, n1, n2, next), m);
    m' := SmallRuns(n0, n1, n2, next, m1);
  }

  lemma WordsLoaded(s15: nat, s16: nat, s7: nat, next: Prog, m: Machine) returns (m': Machine)
    ensures Leads(Then(Load(RSP, s15, RAX), Then(Load(RSP, s16, RBX), Then(AddLoad(RSP, s7, RBX), next))), m, next, m')
    ensures Keeps(m, m', RBX, RBX) && m'.r[RAX].lo == m.Mem(m.At(RSP, s15))
    ensures m'.r[RBX].lo == Add(W, m.Mem(m.At(RSP, s16)), m.Mem(m.At(RSP, s7)))
  {
    var i1, i2, i3 := Load(RSP, s15, RAX), Load(RSP, s16, RBX), AddLoad(RSP, s7, RBX);
    var m1 := Exec(i2, Exec(i1, m));
    m' := Exec(i3, m1);
    Run1(i3, next, m1);
    Run2(i1, i2, Then(i3, next), m);
  }

  lemma SecondRuns(s2: nat, slot: nat, n0: Amount, n1: Amount, n2: Amount, next: Prog, m: Machine) returns (m': Machine)
    ensures Leads(SecondCode(s2, slot, n0, n1, n2, next), m, next, m')
    ensures Stored(m, m', slot, Add(W, m.r[RBX].lo, Small(n0, n1, n2, m.Mem(m.At(RSP, s2)))))
  {
    var i1, i2 := Load(RSP, s2, RAX), Store(RBX, RSP, slot);
    var m1 := Exec(i1, m);
    Run1(i1, SmallCode(n0, n1, n2, Then(i2, next)), m);
    var m2 := SmallRuns(n0, n1, n2, Then(i2, next), m1);
    m' := StoreRuns(slot, next, m2);
    StoredThrough(m, m2, m', slot, m2.r[RBX].lo);
  }

  lemma StoredThrough(m: Machine, m1: Machine, m': Machine, slot: nat, x: nat)
    requires m1.mem == m.mem && m1.xmm == m.xmm && forall y: Reg :: 4 <= y ==> m1.r[y] == m.r[y]
    requires Stored(m1, m', slot, x)
    ensures Stored(m, m', slot, x)
  {
  }

  lemma StoreRuns(slot: nat, next: Prog, m: Machine) returns (m': Machine)
    ensures Leads(Then(Store(RBX, RSP, slot), next), m, next, m') && Stored(m, m', slot, m.r[RBX].lo)
  {
    m' := Exec(Store(RBX, RSP, slot), m);
    Run1(Store(RBX, RSP, slot), next, m);
  }

  /** The schedule code with any slots and amounts. */
  lemma ScheduleRuns(s15: nat, s16: nat, s7: nat, s2: nat, slot: nat,
                     x: (Amount, Amount, Amount), y: (Amount, Amount, Amount), next: Prog, m: Machine)
    returns (m': Machine)
    ensures Leads(FirstCode(s15, s16, s7, x.0, x.1, x.2, SecondCode(s2, slot, y.0, y.1, y.2, next)), m, next, m')
    ensures var w16, w15, w7, w2 := m.Mem(m.At(RSP, s16)), m.Mem(m.At(RSP, s15)), m.Mem(m.At(RSP, s7)),
            m.Mem(m.At(RSP, s2));
            Stored(m, m', slot, Add(W, Add(W, Add(W, w16, w7), Small(x.0, x.1, x.2, w15)), Small(y.0, y.1, y.2, w2)))
  {
    var m1 := FirstRuns(s15, s16, s7, x.0, x.1, x.2, SecondCode(s2, slot, y.0, y.1, y.2, next), m);
    m' := SecondRuns(s2, slot, y.0, y.1, y.2, next, m1);
    SameWord(m, m1, s2);
    StoredFrom(m, m1, m', slot, Add(W, m1.r[RBX].lo, Small(y.0, y.1, y.2, m.Mem(m.At(RSP, s2)))));
  }

  lemma SameWord(m: Machine, m1: Machine, slot: nat)
    requires Keeps(m, m1, RBX, RBX)
    ensures m1.Mem(m1.At(RSP, slot)) == m.Mem(m.At(RSP, slot))
  {
    assert m1.r[RSP] == m.r[RSP];
  }

  /** A store counts from before code that keeps everything but ebx. */
  lemma StoredFrom(m: Machine, m1: Machine, m': Machine, slot: nat, x: nat)
    requires Keeps(m, m1, RBX, RBX) && Stored(m1, m', slot, x)
    ensures Stored(m, m', slot, x)
  {
    assert m1.r[RSP] == m.r[RSP];
  }

  /** The sum the code makes of four schedule words is the next schedule word of the standard. */
  lemma ScheduleValue(block: seq<byte>, i: nat)
    requires |block| == 64 && i >= 16
    ensures var w := ScheduleOf(block);
            Add(W, Add(W, Add(W, w(i - 16), w(i - 7)), Small(7, 18, 3, w(i - 15))), Small(17, 19, 10, w(i - 2))) == w(i)
  {
    var p, w15, w2 := Sha2.Sha256(), ScheduleOf(block)(i - 15), ScheduleOf(block)(i - 2);
    XorRegroups(W, Rotr(W, w15, 7), Rotr(W, w15, 18), Shr(w15, 3));
    XorRegroups(W, Rotr(W, w2, 17), Rotr(W, w2, 19), Shr(w2, 10));
    Sha2.CodeWordIsNext(p, block, i);
  }

  // One round

  /** The block words are where rsi points. */
  ghost predicate BlockAt(m: Machine, block: seq<byte>) {
    && |block| == 64
    && forall i: nat :: i < 16 ==> m.Mem(m.At(RSI, 4 * i)) == LittleEndian(Sha2.WordBytes(Sha2.Sha256(), block, i))
  }

  lemma NextWordRuns(i: nat, next: Prog, m: Machine, block: seq<byte>) returns (m': Machine)
    requires i >= 16 && |block| == 64 && Ring(m, ScheduleOf(block), i)
    ensures Leads(ScheduleCode(i, next), m, next, m') && Stored(m, m', 4 * Slot16(i), ScheduleOf(block)(i))
  {
    var s15, s16, s7, s2 := 4 * Slot16(i - 15), 4 * Slot16(i - 16), 4 * Slot16(i - 7), 4 * Slot16(i - 2);
    m' := ScheduleRuns(s15, s16, s7, s2, 4 * Slot16(i), (7, 18, 3), (17, 19, 10), next, m);
    RingWord(m, ScheduleOf(block), i, i - 16);
    RingWord(m, ScheduleOf(block), i, i - 7);
    RingWord(m, ScheduleOf(block), i, i - 15);
    RingWord(m, ScheduleOf(block), i, i - 2);
    ScheduleValue(block, i);
  }

  /** The code before ROUNDTAIL leaves the schedule word of round i in ebx and in its slot. */
  lemma WordRuns(i: nat, next: Prog, m: Machine, block: seq<byte>) returns (m': Machine)
    requires BlockAt(m, block) && Ring(m, ScheduleOf(block), i)
    ensures Leads(if i < 16 then LoadCode(i, next) else ScheduleCode(i, next), m, next, m')
    ensures Stored(m, m', 4 * Slot16(i), ScheduleOf(block)(i))
  {
    if i < 16 {
      m' := LoadRuns(i, next, m, Sha2.WordBytes(Sha2.Sha256(), block, i));
    } else {
      m' := NextWordRuns(i, next, m, block);
    }
  }

  lemma SameRoles(m: Machine, m': Machine, i: nat)
    requires forall y: Reg :: 4 <= y ==> m'.r[y] == m.r[y]
    ensures Roles(m', i) == Roles(m, i)
  {
    assert Vars(m') == Vars(m);
  }

  /** Running one round is one round of the standard, and the schedule buffer moves on. */
  lemma RoundRuns(i: nat, next: Prog, m: Machine, block: seq<byte>) returns (m': Machine)
    requires i < 64 && BlockAt(m, block) && Ring(m, ScheduleOf(block), i)
    ensures Leads(RoundCode(i, next), m, next, m')
    ensures KeepsRest(m, m') && Ring(m', ScheduleOf(block), i + 1) && SameOutside(m, m', m.At(RSP, 0), 64)
    ensures Roles(m', i + 1) == Sha2.Step(Sha2.Sha256(), Roles(m, i), Sha2.K256()[i], ScheduleOf(block)(i))
  {
    var tail := TailCode(i, Constant(i), next);
    var m1 := WordRuns(i, tail, m, block);
    m' := TailRuns(i, Constant(i), next, m1);
    SameRoles(m, m1, i);
    ConstantsAgree(i);
    RingMoves(m, m', ScheduleOf(block), i);
  }

  // The whole routine

  /** The 64 lines of rounds from line i on. */
  function RoundsCode(i: nat, next: Prog): Prog
    requires i <= 64
    decreases 64 - i, next
  {
    if i == 64 then next else RoundCode(i, RoundsCode(i + 1, next))
  }

  /** r10 to r15 and rbx are saved in xmm registers, from number j on. */
  function SaveCode(j: nat, next: Prog): Prog
    requires j <= 6
    decreases 6 - j, next
  {
    if j == 6 then Then(ToXmm(RBX, 6), next) else Then(ToXmm(10 + j, j), SaveCode(j + 1, next))
  }

  function LoadStateCode(j: nat, next: Prog): Prog
    requires j <= 8
    decreases 8 - j, next
  {
    if j == 8 then next else Then(Load(RDI, 4 * j, 8 + j), LoadStateCode(j + 1, next))
  }

  function AddStateCode(j: nat, next: Prog): Prog
    requires j <= 8
    decreases 8 - j, next
  {
    if j == 8 then next else Then(AddStore(8 + j, RDI, 4 * j), AddStateCode(j + 1, next))
  }

  function RestoreCode(j: nat, next: Prog): Prog
    requires j <= 6
    decreases 6 - j, next
  {
    if j == 6 then Then(FromXmm(6, RBX), next) else Then(FromXmm(j, 10 + j), RestoreCode(j + 1, next))
  }

  /** sha256_compress up to its return. */
  function Program(next: Prog): Prog {
    SaveCode(0, Then(Lower(64),
        LoadStateCode(0, RoundsCode(0, AddStateCode(0, RestoreCode(0, Then(Raise(64), next)))))))
  }

  /** What holds before round i, given the machine m0 and the state s before the first. */
  ghost predicate During(m0: Machine, m: Machine, s: seq<nat>, block: seq<byte>, i: nat)
    requires |s| == 8 && |block| == 64 && i <= 64
  {
    && KeepsRest(m0, m) && SameOutside(m0, m, m0.At(RSP, 0), 64) && Ring(m, ScheduleOf(block), i)
    && Roles(m, i) == Sha2.Rounds(Sha2.Sha256(), s, block, i)
  }

  /** The block lies outside of the sixteen words at the stack pointer. */
  predicate BlockApart(m: Machine) {
    Apart(m.At(RSI, 0), 64, m.At(RSP, 0), 64)
  }

  lemma BlockStays(m: Machine, m': Machine, block: seq<byte>)
    requires BlockAt(m, block) && BlockApart(m) && m'.r[RSI] == m.r[RSI] && SameOutside(m, m', m.At(RSP, 0), 64)
    ensures BlockAt(m', block)
  {
    forall i: nat | i < 16 ensures m'.Mem(m'.At(RSI, 4 * i)) == m.Mem(m.At(RSI, 4 * i)) {
      assert Apart(m.At(RSI, 4 * i), 4, m.At(RSP, 0), 64);
    }
  }

  /** One round keeps what holds before every round. */
  lemma RoundKeeps(m0: Machine, i: nat, m: Machine, m': Machine, s: seq<nat>, block: seq<byte>)
    requires i < 64 && |s| == 8 && |block| == 64 && During(m0, m, s, block, i)
    requires KeepsRest(m, m') && Ring(m', ScheduleOf(block), i + 1) && SameOutside(m, m', m.At(RSP, 0), 64)
    requires Roles(m', i + 1) == Sha2.Step(Sha2.Sha256(), Roles(m, i), Sha2.K256()[i], ScheduleOf(block)(i))
    ensures During(m0, m', s, block, i + 1)
  {
    assert m.At(RSP, 0) == m0.At(RSP, 0);
  }

  /** Line i of the rounds. */
  lemma LineRuns(m0: Machine, i: nat, next: Prog, m: Machine, s: seq<nat>, block: seq<byte>) returns (m': Machine)
    requires i < 64 && |s| == 8 && BlockAt(m0, block) && BlockApart(m0) && During(m0, m, s, block, i)
    ensures Leads(RoundsCode(i, next), m, RoundsCode(i + 1, next), m') && During(m0, m', s, block, i + 1)
  {
    BlockStays(m0, m, block);
    m' := RoundRuns(i, RoundsCode(i + 1, next), m, block);
    RoundKeeps(m0, i, m, m', s, block);
  }

  lemma {:induction false} RoundsRun(m0: Machine, i: nat, n: nat, next: Prog, m: Machine, s: seq<nat>, block: seq<byte>)
    returns (m': Machine)
    requires i <= n == 64 && |s| == 8 && BlockAt(m0, block) && BlockApart(m0) && During(m0, m, s, block, i)
    ensures Leads(RoundsCode(i, next), m, next, m') && During(m0, m', s, block, n)
    decreases n - i
  {
    if i == n {
      m' := m;
    } else {
      var m1 := LineRuns(m0, i, next, m, s, block);
      m' := RoundsRun(m0, i + 1, n, next, m1, s, block);
    }
  }

  lemma {:induction false} SaveRuns(j: nat, next: Prog, m: Machine) returns (m': Machine)
    requires j <= 6
    ensures Leads(SaveCode(j, next), m, next, m') && m'.mem == m.mem && m'.r == m.r
    ensures m'.xmm[6] == m.r[RBX] && forall x :: 0 <= x < 6 ==> m'.xmm[x] == if x < j then m.xmm[x] else m.r[10 + x]
    decreases 6 - j
  {
    if j == 6 {
      m' := Exec(ToXmm(RBX, 6), m);
    } else {
      var m1 := Exec(ToXmm(10 + j, j), m);
      Run1(ToXmm(10 + j, j), SaveCode(j + 1, next), m);
      m' := SaveRuns(j + 1, next, m1);
    }
  }

  lemma {:induction false} RestoreRuns(j: nat, next: Prog, m: Machine) returns (m': Machine)
    requires j <= 6
    ensures Leads(RestoreCode(j, next), m, next, m') && m'.mem == m.mem
    ensures m'.r[RBX] == m.xmm[6]
    ensures forall x: Reg :: 10 <= x ==> m'.r[x] == if x < 10 + j then m.r[x] else m.xmm[x - 10]
    ensures forall x: Reg :: 4 <= x < 8 ==> m'.r[x] == m.r[x]
    decreases 6 - j
  {
    if j == 6 {
      m' := Exec(FromXmm(6, RBX), m);
    } else {
      var m1 := Exec(FromXmm(j, 10 + j), m);
      Run1(FromXmm(j, 10 + j), RestoreCode(j + 1, next), m);
      m' := RestoreRuns(j + 1, next, m1);
    }
  }

  lemma {:induction false} LoadStateRuns(j: nat, next: Prog, m: Machine) returns (m': Machine)
    requires j <= 8
    ensures Leads(LoadStateCode(j, next), m, next, m') && m'.mem == m.mem && m'.xmm == m.xmm
    ensures forall x: Reg :: x < 8 + j ==> m'.r[x] == m.r[x]
    ensures forall x :: j <= x < 8 ==> m'.r[8 + x].lo == m'.Mem(m'.At(RDI, 4 * x))
    decreases 8 - j
  {
    if j == 8 {
      m' := m;
    } else {
      var m1 := Exec(Load(RDI, 4 * j, 8 + j), m);
      Run1(Load(RDI, 4 * j, 8 + j), LoadStateCode(j + 1, next), m);
      m' := LoadStateRuns(j + 1, next, m1);
      assert m'.r[8 + j] == m1.r[8 + j] && m1.r[8 + j].lo == m.Mem(m.At(RDI, 4 * j));
    }
  }

  lemma {:induction false} AddStateRuns(j: nat, next: Prog, m: Machine) returns (m': Machine)
    requires j <= 8
    ensures Leads(AddStateCode(j, next), m, next, m') && m'.r == m.r && m'.xmm == m.xmm
    ensures forall x :: j <= x < 8 ==> m'.Mem(m.At(RDI, 4 * x)) == Add(W, m.Mem(m.At(RDI, 4 * x)), m.r[8 + x].lo)
    ensures forall a: nat :: (a < m.At(RDI, 4 * j) || m.At(RDI, 32) <= a) ==> m'.Mem(a) == m.Mem(a)
    decreases 8 - j
  {
    if j == 8 {
      m' := m;
    } else {
      var m1 := Exec(AddStore(8 + j, RDI, 4 * j), m);
      Run1(AddStore(8 + j, RDI, 4 * j), AddStateCode(j + 1, next), m);
      m' := AddStateRuns(j + 1, next, m1);
      assert m'.Mem(m.At(RDI, 4 * j)) == m1.Mem(m.At(RDI, 4 * j));
      forall x | j < x < 8
        ensures m'.Mem(m.At(RDI, 4 * x)) == Add(W, m.Mem(m.At(RDI, 4 * x)), m.r[8 + x].lo)
      {
        assert m1.At(RDI, 4 * x) == m.At(RDI, 4 * x) != m.At(RDI, 4 * j);
        assert m1.Mem(m.At(RDI, 4 * x)) == m.Mem(m.At(RDI, 4 * x));
      }
    }
  }

  /** What the routine may assume of its caller: its arguments, and room below the stack pointer. */
  ghost predicate Called(m: Machine, s: seq<nat>, block: seq<byte>) {
    && |s| == 8 && BlockAt(m, block)
    && Holds(m, m.r[RDI], s)
    && m.r[RSP].hi < HALF && m.r[RSP].lo < HALF && 64 <= m.At(RSP, 0)
    && Apart(m.At(RSI, 0), 64, m.At(RSP, 0) - 64, 64) && Apart(m.At(RDI, 0), 32, m.At(RSP, 0) - 64, 64)
  }

  /** The registers the calling convention or the code preserves: rbx, rsp to rdi, r10 to r15. */
  predicate Restored(m: Machine, m': Machine) {
    && m'.r[RBX] == m.r[RBX]
    && (forall x: Reg :: 4 <= x < 8 ==> m'.r[x] == m.r[x])
    && (forall x: Reg :: 10 <= x ==> m'.r[x] == m.r[x])
  }

  /** The machine m1 after the prologue: registers saved, stack lowered, state loaded. */
  predicate Entered(m: Machine, m1: Machine) {
    && m1.mem == m.mem && m1.xmm[6] == m.r[RBX] && (forall x :: 0 <= x < 6 ==> m1.xmm[x] == m.r[10 + x])
    && m1.r[RBP] == m.r[RBP] && m1.r[RSI] == m.r[RSI] && m1.r[RDI] == m.r[RDI]
    && m1.At(RSP, 0) == m.At(RSP, 0) - 64 && Raised(m1.r[RSP]) == m.r[RSP]
    && forall x :: 0 <= x < 8 ==> m1.r[8 + x].lo == m1.Mem(m1.At(RDI, 4 * x))
  }

  lemma LowerRuns(next: Prog, m: Machine) returns (m': Machine)
    requires m.r[RSP].hi < HALF && m.r[RSP].lo < HALF && 64 <= m.At(RSP, 0)
    ensures Leads(Then(Lower(64), next), m, next, m') && m'.mem == m.mem && m'.xmm == m.xmm
    ensures m'.At(RSP, 0) == m.At(RSP, 0) - 64 && Raised(m'.r[RSP]) == m.r[RSP]
    ensures forall x: Reg :: x != RSP ==> m'.r[x] == m.r[x]
  {
    m' := Exec(Lower(64), m);
    Run1(Lower(64), next, m);
    StackMoves(m.r[RSP], 64);
  }

  /** The code before the first round. */
  lemma PrologueRuns(next: Prog, m: Machine) returns (m': Machine)
    requires m.r[RSP].hi < HALF && m.r[RSP].lo < HALF && 64 <= m.At(RSP, 0)
    ensures Leads(SaveCode(0, Then(Lower(64), LoadStateCode(0, next))), m, next, m') && Entered(m, m')
  {
    var m1 := SaveRuns(0, Then(Lower(64), LoadStateCode(0, next)), m);
    var m2 := LowerRuns(LoadStateCode(0, next), m1);
    m' := LoadStateRuns(0, next, m2);
  }

  /** What the rounds start from. */
  ghost predicate Started(m: Machine, s: seq<nat>, block: seq<byte>) {
    && |s| == 8 && BlockAt(m, block) && BlockApart(m) && Apart(m.At(RDI, 0), 32, m.At(RSP, 0), 64)
    && Holds(m, m.r[RDI], s) && During(m, m, s, block, 0)
  }

  /** After the prologue the machine is ready for round 0. */
  lemma FirstRound(m: Machine, m1: Machine, s: seq<nat>, block: seq<byte>)
    requires Called(m, s, block) && Entered(m, m1)
    ensures Started(m1, s, block)
  {
    forall i: nat | i < 16 ensures m1.Mem(m1.At(RSI, 4 * i)) == LittleEndian(Sha2.WordBytes(Sha2.Sha256(), block, i)) {
      assert m1.Mem(m1.At(RSI, 4 * i)) == m.Mem(m.At(RSI, 4 * i));
    }
    forall j | 0 <= j < 8 ensures m1.Mem(Address(m1.r[RDI]) + 4 * j) == s[j] {
      assert m1.Mem(Address(m1.r[RDI]) + 4 * j) == m.Mem(Address(m.r[RDI]) + 4 * j);
    }
    WholeLaps(Vars(m1), 0);
    forall j | 0 <= j < 8 ensures Vars(m1)[j] == s[j] {
      assert m1.Mem(m1.At(RDI, 4 * j)) == m1.Mem(Address(m1.r[RDI]) + 4 * j);
    }
    assert Vars(m1) == s;
  }

  /** The machine after the epilogue: state added to, registers restored, stack raised. */
  ghost predicate Left(m: Machine, m': Machine) {
    && (forall j :: 0 <= j < 8 ==> m'.Mem(m.At(RDI, 4 * j)) == Add(W, m.Mem(m.At(RDI, 4 * j)), m.r[8 + j].lo))
    && SameOutside(m, m', m.At(RDI, 0), 32)
    && m'.r[RBX] == m.xmm[6] && (forall x: Reg :: 10 <= x ==> m'.r[x] == m.xmm[x - 10])
    && m'.r[RSP] == Raised(m.r[RSP]) && forall x: Reg :: 5 <= x < 8 ==> m'.r[x] == m.r[x]
  }

  /** The code after the last round. */
  lemma EpilogueRuns(next: Prog, m: Machine) returns (m': Machine)
    ensures Leads(AddStateCode(0, RestoreCode(0, Then(Raise(64), next))), m, next, m') && Left(m, m')
  {
    var m1 := AddStateRuns(0, RestoreCode(0, Then(Raise(64), next)), m);
    var m2 := RestoreRuns(0, Then(Raise(64), next), m1);
    m' := RaiseRuns(next, m2);
  }

  lemma RaiseRuns(next: Prog, m: Machine) returns (m': Machine)
    ensures Leads(Then(Raise(64), next), m, next, m') && m'.mem == m.mem
    ensures m'.r == m.r[RSP := Raised(m.r[RSP])]
  {
    m' := Exec(Raise(64), m);
    Run1(Raise(64), next, m);
  }

  /**
   The compressed state is where rdi points, every preserved register is as it was, and
   so is every word that lies neither in the state nor in the 64 bytes of scratch space
   below the stack pointer.
   */
  ghost predicate Compressed(m: Machine, m': Machine, s: seq<nat>, block: seq<byte>)
    requires |s| == 8 && |block| == 64
  {
    && Restored(m, m')
    && Holds(m', m.r[RDI], Sha2.Compress(Sha2.Sha256(), s, block))
    && (forall a: nat :: Apart(a, 4, m.At(RDI, 0), 32) && Apart(a, 4, m.At(RSP, 0) - 64, 64) ==> m'.Mem(a) == m.Mem(a))
  }

  /** For every state and block, running the code has the effect of the standard's function. */
  lemma CompressRuns(next: Prog, m: Machine, s: seq<nat>, block: seq<byte>) returns (m': Machine)
    requires Called(m, s, block)
    ensures Leads(Program(next), m, next, m') && Compressed(m, m', s, block)
  {
    var after := AddStateCode(0, RestoreCode(0, Then(Raise(64), next)));
    var m1 := PrologueRuns(RoundsCode(0, after), m);
    FirstRound(m, m1, s, block);
    var m2 := RoundsRun(m1, 0, 64, after, m1, s, block);
    m' := EpilogueRuns(next, m2);
    RoutineEffect(m, m1, m2, m', s, block);
  }

  lemma RegistersRestored(m: Machine, m1: Machine, m2: Machine, m': Machine)
    requires Entered(m, m1) && KeepsRest(m1, m2) && Left(m2, m')
    ensures Restored(m, m')
  {
    assert m2.r[RSP] == m1.r[RSP];
    forall x: Reg | 10 <= x ensures m'.r[x] == m.r[x] {
      assert m1.xmm[x - 10] == m.r[10 + (x - 10)];
    }
  }

  lemma OthersKept(m: Machine, m1: Machine, m2: Machine, m': Machine)
    requires Entered(m, m1) && KeepsRest(m1, m2) && SameOutside(m1, m2, m1.At(RSP, 0), 64) && Left(m2, m')
    ensures forall a: nat ::
              Apart(a, 4, m.At(RDI, 0), 32) && Apart(a, 4, m.At(RSP, 0) - 64, 64) ==> m'.Mem(a) == m.Mem(a)
  {
    assert m2.At(RDI, 0) == m.At(RDI, 0);
  }

  lemma StateWord(m1: Machine, m2: Machine, m': Machine, s: seq<nat>, j: nat)
    requires j < |s| == 8 && Holds(m1, m1.r[RDI], s) && Apart(m1.At(RDI, 0), 32, m1.At(RSP, 0), 64)
    requires KeepsRest(m1, m2) && SameOutside(m1, m2, m1.At(RSP, 0), 64) && Left(m2, m')
    ensures m'.Mem(Address(m1.r[RDI]) + 4 * j) == Add(W, s[j], m2.r[8 + j].lo)
  {
    assert m2.At(RDI, 4 * j) == m1.At(RDI, 4 * j);
    assert Apart(m1.At(RDI, 4 * j), 4, m1.At(RSP, 0), 64);
    assert m2.Mem(m1.At(RDI, 4 * j)) == m1.Mem(m1.At(RDI, 4 * j));
  }

  lemma StateStored(m1: Machine, m2: Machine, m': Machine, s: seq<nat>, block: seq<byte>)
    requires Started(m1, s, block) && During(m1, m2, s, block, 64) && Left(m2, m')
    ensures Holds(m', m1.r[RDI], Sha2.Compress(Sha2.Sha256(), s, block))
  {
    WholeLaps(Vars(m2), 64);
    forall j | 0 <= j < 8 ensures m'.Mem(Address(m1.r[RDI]) + 4 * j) == AddWords(W, s, Vars(m2))[j] {
      StateWord(m1, m2, m', s, j);
    }
  }

  lemma RoutineEffect(m: Machine, m1: Machine, m2: Machine, m': Machine, s: seq<nat>, block: seq<byte>)
    requires Entered(m, m1) && Started(m1, s, block) && During(m1, m2, s, block, 64) && Left(m2, m')
    ensures Compressed(m, m', s, block)
  {
    StateStored(m1, m2, m', s, block);
    assert m1.r[RDI] == m.r[RDI];
    RegistersRestored(m, m1, m2, m');
    OthersKept(m, m1, m2, m');
  }

  /** The routine on a processor. */
  method CompressOn(cpu: Cpu, ghost s: seq<nat>, ghost block: seq<byte>)
    requires Called(cpu.m, s, block)
    modifies cpu
    ensures Compressed(old(cpu.m), cpu.m, s, block)
  {
    var halt := Halt;
    ghost var m' := CompressRuns(halt, cpu.m, s, block);
    cpu.Execute(Program(halt));
  }

  // The constants as the assembly code writes them

  function Constant(i: nat): int
    requires i < 64
  {
    if i < 16 then Constants0()[i]
    else if i < 32 then Constants1()[i - 16]
    else if i < 48 then Constants2()[i - 32]
    else Constants3()[i - 48]
  }

  function Constants0(): (k: seq<int>)
    ensures |k| == 16
  {
    [
      0x428A2F98, 0x71374491, -0x4A3F0431, -0x164A245B, 0x3956C25B, 0x59F111F1, -0x6DC07D5C, -0x54E3A12B,
      -0x27F85568, 0x12835B01, 0x243185BE, 0x550C7DC3, 0x72BE5D74, -0x7F214E02, -0x6423F959, -0x3E640E8C
    ]
  }

  function Constants1(): (k: seq<int>)
    ensures |k| == 16
  {
    [
      -0x1B64963F, -0x1041B87A, 0x0FC19DC6, 0x240CA1CC, 0x2DE92C6F, 0x4A7484AA, 0x5CB0A9DC, 0x76F988DA,
      -0x67C1AEAE, -0x57CE3993, -0x4FFCD838, -0x40A68039, -0x391FF40D, -0x2A586EB9, 0x06CA6351, 0x14292967
    ]
  }

  function Constants2(): (k: seq<int>)
    ensures |k| == 16
  {
    [
      0x27B70A85, 0x2E1B2138, 0x4D2C6DFC, 0x53380D13, 0x650A7354, 0x766A0ABB, -0x7E3D36D2, -0x6D8DD37B,
      -0x5D40175F, -0x57E599B5, -0x3DB47490, -0x3893AE5D, -0x2E6D17E7, -0x2966F9DC, -0x0BF1CA7B, 0x106AA070
    ]
  }

  function Constants3(): (k: seq<int>)
    ensures |k| == 16
  {
    [
      0x19A4C116, 0x1E376C08, 0x2748774C, 0x34B0BCB5, 0x391C0CB3, 0x4ED8AA4A, 0x5B9CCA4F, 0x682E6FF3,
      0x748F82EE, 0x78A5636F, -0x7B3787EC, -0x7338FDF8, -0x6F410006, -0x5BAF9315, -0x41065C09, -0x398E870E
    ]
  }

  /** The signed constants have the low 32 bits of the standard's constants. */
  lemma Quarters(a: seq<nat>, b: seq<nat>, c: seq<nat>, d: seq<nat>, i: nat)
    requires |a| == |b| == |c| == |d| == 16 && i < 64
    ensures (a + b + c + d)[i] == if i < 16 then a[i] else if i < 32 then b[i - 16] else if i < 48 then c[i - 32]
            else d[i - 48]
  {
  }

  lemma ConstantsAgree(i: nat)
    requires i < 64
    ensures Imm32(Constant(i)) == Sha2.K256()[i]
  {
    Quarters(Sha2.K256a(), Sha2.K256b(), Sha2.K256c(), Sha2.K256d(), i);
    if i < 16 {
      Agree0(i);
    } else if i < 32 {
      Agree1(i - 16);
    } else if i < 48 {
      Agree2(i - 32);
    } else {
      Agree3(i - 48);
    }
  }

  lemma Agree0(j: nat)
    requires j < 16
    ensures Imm32(Constants0()[j]) == Sha2.K256a()[j]
  {
  }

  lemma Agree1(j: nat)
    requires j < 16
    ensures Imm32(Constants1()[j]) == Sha2.K256b()[j]
  {
  }

  lemma Agree2(j: nat)
    requires j < 16
    ensures Imm32(Constants2()[j]) == Sha2.K256c()[j]
  {
  }

  lemma Agree3(j: nat)
    requires j < 16
    ensures Imm32(Constants3()[j]) == Sha2.K256d()[j]
  {
  }
}
