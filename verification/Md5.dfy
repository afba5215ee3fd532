/**
 MD5 compression: the definition of section 3.4 of RFC 1321, as a loop that shifts the
 four working variables, and the unrolled C code that renames them.
 */
module Md5 {
  import opened MachineInt
  import opened Renaming
  import opened Words
  import opened Loads

  const W: nat := 32

  // The definition

  function Word(block: seq<byte>, k: nat): nat
    requires k < 16 && |block| == 64
  {
    LittleEndian(block[4 * k..4 * k + 4])
  }

  /** F, G, H and I, for steps 0-15, 16-31, 32-47 and 48-63. */
  function Mix(t: nat, x: nat, y: nat, z: nat): nat {
    if t < 16 then Or(W, And(W, x, y), And(W, Not(W, x), z))
    else if t < 32 then Or(W, And(W, x, z), And(W, y, Not(W, z)))
    else if t < 48 then Parity(W, x, y, z)
    else Xor(W, y, Or(W, x, Not(W, z)))
  }

  /** Which word of the block step t uses. */
  function WordIndex(t: nat): (k: nat)
    ensures k < 16
  {
    (if t < 16 then t else if t < 32 then 5 * t + 1 else if t < 48 then 3 * t + 5 else 7 * t) % 16
  }

  /** How far step t rotates. */
  function Shift(t: nat): (s: nat)
    ensures 0 < s < 32
  {
    var column := t % 4;
    if t < 16 then [7, 12, 17, 22][column]
    else if t < 32 then [5, 9, 14, 20][column]
    else if t < 48 then [4, 11, 16, 23][column]
    else [6, 10, 15, 21][column]
  }

  /** One step: all four working variables shift. */
  function Step(s: seq<nat>, t: nat, x: nat): (r: seq<nat>)
    requires |s| == 4 && t < 64
    ensures |r| == 4
  {
    var sum := Add(W, Add(W, Add(W, s[0], Mix(t, s[1], s[2], s[3])), x), T()[t]);
    [s[3], Add(W, s[1], Rotl(W, sum, Shift(t))), s[1], s[2]]
  }

  function Rounds(s: seq<nat>, block: seq<byte>, t: nat): (r: seq<nat>)
    requires |s| == 4 && |block| == 64 && t <= 64
    ensures |r| == 4
    decreases t, block
  {
    if t == 0 then s else Step(Rounds(s, block, t - 1), t - 1, Word(block, WordIndex(t - 1)))
  }

  function Compress(s: seq<nat>, block: seq<byte>): (r: seq<nat>)
    requires |s| == 4 && |block| == 64
    ensures |r| == 4
  {
    AddWords(W, s, Rounds(s, block, 64))
  }

  // The C code

  /** The expressions of ROUND0 to ROUND3. */
  function CodeMix(i: nat, b: nat, c: nat, d: nat): nat {
    if i < 16 then ChoiceByXor(W, b, c, d)
    else if i < 32 then ChoiceByXor(W, d, b, c)
    else if i < 48 then Parity(W, b, c, d)
    else Xor(W, c, Or(W, b, Not(W, d)))
  }

  lemma CodeMixIsMix(i: nat, b: nat, c: nat, d: nat)
    ensures CodeMix(i, b, c, d) == Mix(i, b, c, d)
  {
    ChoiceByXorIsCh(W, b, c, d);
    ChoiceByOrIsCh(W, b, c, d);
    ChoiceByXorIsG(b, c, d);
  }

  /** The second function chooses by its third argument. */
  lemma ChoiceByXorIsG(b: nat, c: nat, d: nat)
    ensures ChoiceByXor(W, d, b, c) == Or(W, And(W, b, d), And(W, c, Not(W, d)))
  {
    ChoiceByXorIsCh(W, d, b, c);
    var g := Or(W, And(W, b, d), And(W, c, Not(W, d)));
    forall i: nat | i < W ensures Bit(g, i) == Bit(Ch(W, d, b, c), i) {
      ChBit(W, d, b, c, i);
      CombineBit(OR, W, And(W, b, d), And(W, c, Not(W, d)), i);
      CombineBit(AND, W, b, d, i);
      CombineBit(AND, W, c, Not(W, d), i);
      NotBit(W, d, i);
    }
    SameBits(W, g, Ch(W, d, b, c));
  }

  /** The source adds the constant before the block word. */
  lemma SumOrder(a: nat, f: nat, x: nat, t: nat)
    ensures Add(W, Add(W, Add(W, a, f), t), x) == Add(W, Add(W, Add(W, a, f), x), t)
  {
    AddRegroups(W, Add(W, a, f), t, x);
  }

  /** The word index and rotation tables of the macro list follow the rules of the definition. */
  lemma TablesAreRight(i: nat)
    requires i < 64
    ensures CodeIndex(i) == WordIndex(i) && CodeShift(i) == Shift(i)
  {
    if i < 16 {
      Table0(i);
    } else if i < 32 {
      Table1(i - 16);
    } else if i < 48 {
      Table2(i - 32);
    } else {
      Table3(i - 48);
    }
  }

  lemma Table0(j: nat)
    requires j < 16
    ensures Index0(j) == j && Shift0(j) == Shift(j)
  {
  }

  lemma Table1(j: nat)
    requires j < 16
    ensures Index1(j) == (5 * (j + 16) + 1) % 16 && Shift1(j) == Shift(j + 16)
  {
  }

  lemma Table2(j: nat)
    requires j < 16
    ensures Index2(j) == (3 * (j + 32) + 5) % 16 && Shift2(j) == Shift(j + 32)
  {
  }

  lemma Table3(j: nat)
    requires j < 16
    ensures Index3(j) == (7 * (j + 48)) % 16 && Shift3(j) == Shift(j + 48)
  {
  }

  /** LOADSCHEDULE. */
  function LoadSchedule(block: seq<byte>, i: nat): (x: nat)
    requires i < 16 && |block| == 64
    ensures x == Word(block, i)
  {
    LoadsAreNumbers(W, block[4 * i..4 * i + 4]);
    LoadByOrLittle(W, block[4 * i..4 * i + 4], 4)
  }

  /** What ROUND_TAIL leaves in the variable called a. */
  function CodeA(s: seq<nat>, i: nat, x: nat, shift: nat): nat
    requires |s| == 4 && i < 64 && shift <= W
  {
    var a := Add(W, Add(W, Add(W, s[0], CodeMix(i, s[1], s[2], s[3])), T()[i]), x);
    Add(W, s[1], Rotl(W, a, shift))
  }

  /** In role order, that store followed by the renaming makes one step of the definition. */
  lemma CodeIsStep(s: seq<nat>, i: nat, x: nat)
    requires |s| == 4 && i < 64
    ensures CodeShift(i) <= W && Step(s, i, x) == [s[3], CodeA(s, i, x, CodeShift(i)), s[1], s[2]]
  {
    CodeMixIsMix(i, s[1], s[2], s[3]);
    SumOrder(s[0], CodeMix(i, s[1], s[2], s[3]), x, T()[i]);
    TablesAreRight(i);
  }

  /** One line of the macro list: ROUND_TAIL stores only the variable called a in that line. */
  method Round(v: array<nat>, i: nat, x: nat)
    requires v.Length == 4 && i < 64
    modifies v
    ensures View(v[..], i + 1) == Step(old(View(v[..], i)), i, x)
  {
    var s := View(v[..], i);
    CodeIsStep(s, i, x);
    StoreOne(v, i, 0, CodeA(s, i, x, CodeShift(i)));
  }

  method AllRounds(v: array<nat>, schedule: array<nat>, block: seq<byte>)
    requires v.Length == 4 && schedule.Length == 16 && v != schedule && |block| == 64
    requires forall j :: 0 <= j < 16 ==> schedule[j] == Word(block, j)
    modifies v
    ensures v[..] == Rounds(old(v[..]), block, 64)
  {
    WholeLaps(v[..], 0);
    for i := 0 to 64
      invariant View(v[..], i) == Rounds(old(v[..]), block, i)
    {
      TablesAreRight(i);
      Round(v, i, schedule[CodeIndex(i)]);
    }
    WholeLaps(v[..], 64);
  }

  method LoadAll(block: seq<byte>) returns (schedule: array<nat>)
    requires |block| == 64
    ensures fresh(schedule) && schedule.Length == 16
    ensures forall j :: 0 <= j < 16 ==> schedule[j] == Word(block, j)
  {
    schedule := new nat[16];
    for i := 0 to 16
      invariant forall j :: 0 <= j < i ==> schedule[j] == Word(block, j)
    {
      schedule[i] := LoadSchedule(block, i);
    }
  }

  /** md5_compress. */
  method CompressInPlace(state: array<nat>, block: seq<byte>)
    requires state.Length == 4 && |block| == 64
    modifies state
    ensures state[..] == Compress(old(state[..]), block)
  {
    var schedule := LoadAll(block);
    var v := CopyOf(state);
    AllRounds(v, schedule, block);
    AddToState(W, state, v);
  }

  // Tables of the macro list

  function CodeIndex(i: nat): nat
    requires i < 64
  {
    if i < 16 then Index0(i) else if i < 32 then Index1(i - 16) else if i < 48 then Index2(i - 32) else Index3(i - 48)
  }

  function CodeShift(i: nat): nat
    requires i < 64
  {
    if i < 16 then Shift0(i) else if i < 32 then Shift1(i - 16) else if i < 48 then Shift2(i - 32) else Shift3(i - 48)
  }

  function Index0(j: nat): nat requires j < 16 { [0, 1, 2, 3, 4, 5, 6, 7, 8, 9, 10, 11, 12, 13, 14, 15][j] }

  function Index1(j: nat): nat requires j < 16 { [1, 6, 11, 0, 5, 10, 15, 4, 9, 14, 3, 8, 13, 2, 7, 12][j] }

  function Index2(j: nat): nat requires j < 16 { [5, 8, 11, 14, 1, 4, 7, 10, 13, 0, 3, 6, 9, 12, 15, 2][j] }

  function Index3(j: nat): nat requires j < 16 { [0, 7, 14, 5, 12, 3, 10, 1, 8, 15, 6, 13, 4, 11, 2, 9][j] }

  function Shift0(j: nat): nat requires j < 16 { [7, 12, 17, 22, 7, 12, 17, 22, 7, 12, 17, 22, 7, 12, 17, 22][j] }

  function Shift1(j: nat): nat requires j < 16 { [5, 9, 14, 20, 5, 9, 14, 20, 5, 9, 14, 20, 5, 9, 14, 20][j] }

  function Shift2(j: nat): nat requires j < 16 { [4, 11, 16, 23, 4, 11, 16, 23, 4, 11, 16, 23, 4, 11, 16, 23][j] }

  function Shift3(j: nat): nat requires j < 16 { [6, 10, 15, 21, 6, 10, 15, 21, 6, 10, 15, 21, 6, 10, 15, 21][j] }

  function T(): (t: seq<nat>)
    ensures |t| == 64
  {
    T0() + T1() + T2() + T3()
  }

  function T0(): (t: seq<nat>)
    ensures |t| == 16
  {
    [
      0xD76AA478, 0xE8C7B756, 0x242070DB, 0xC1BDCEEE, 0xF57C0FAF, 0x4787C62A, 0xA8304613, 0xFD469501,
      0x698098D8, 0x8B44F7AF, 0xFFFF5BB1, 0x895CD7BE, 0x6B901122, 0xFD987193, 0xA679438E, 0x49B40821
    ]
  }

  function T1(): (t: seq<nat>)
    ensures |t| == 16
  {
    [
      0xF61E2562, 0xC040B340, 0x265E5A51, 0xE9B6C7AA, 0xD62F105D, 0x02441453, 0xD8A1E681, 0xE7D3FBC8,
      0x21E1CDE6, 0xC33707D6, 0xF4D50D87, 0x455A14ED, 0xA9E3E905, 0xFCEFA3F8, 0x676F02D9, 0x8D2A4C8A
    ]
  }

  function T2(): (t: seq<nat>)
    ensures |t| == 16
  {
    [
      0xFFFA3942, 0x8771F681, 0x6D9D6122, 0xFDE5380C, 0xA4BEEA44, 0x4BDECFA9, 0xF6BB4B60, 0xBEBFBC70,
      0x289B7EC6, 0xEAA127FA, 0xD4EF3085, 0x04881D05, 0xD9D4D039, 0xE6DB99E5, 0x1FA27CF8, 0xC4AC5665
    ]
  }

  function T3(): (t: seq<nat>)
    ensures |t| == 16
  {
    [
      0xF4292244, 0x432AFF97, 0xAB9423A7, 0xFC93A039, 0x655B59C3, 0x8F0CCC92, 0xFFEFF47D, 0x85845DD1,
      0x6FA87E4F, 0xFE2CE6E0, 0xA3014314, 0x4E0811A1, 0xF7537E82, 0xBD3AF235, 0x2AD7D2BB, 0xEB86D391
    ]
  }
}
