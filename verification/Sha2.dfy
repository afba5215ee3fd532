/**
 SHA-2 compression: the standard's definition (sections 4.1.2, 4.1.3, 6.2.2 and 6.4.2 of
 FIPS 180-4) and the C code, whose SHA-256 and SHA-512 versions are the same macros with
 other widths, rotation amounts and constants.
 */
module Sha2 {
  import opened MachineInt
  import opened Renaming
  import opened Words
  import opened Loads

  /** What distinguishes the members of the family; the amounts are those of the four sigma functions. */
  datatype Variant = Variant(
    wordBytes: nat, rounds: nat,
    bigA: (nat, nat, nat), bigE: (nat, nat, nat), small0: (nat, nat, nat), small1: (nat, nat, nat),
    k: seq<nat>)
  {
    function W(): nat {
      8 * wordBytes
    }

    function BlockLength(): nat {
      16 * wordBytes
    }

    predicate Ok() {
      && Within(bigA) && Within(bigE) && Within(small0) && Within(small1)
      && 16 <= rounds == |k| && rounds % 8 == 0
    }

    predicate Within(r: (nat, nat, nat)) {
      r.0 <= W() && r.1 <= W() && r.2 <= W()
    }
  }

  function Sha256(): (p: Variant)
    ensures p.Ok() && p.wordBytes == 4 && p.rounds == 64
  {
    Variant(4, 64, (2, 13, 22), (6, 11, 25), (7, 18, 3), (17, 19, 10), K256())
  }

  function Sha512(): (p: Variant)
    ensures p.Ok() && p.wordBytes == 8 && p.rounds == 80
  {
    Variant(8, 80, (28, 34, 39), (14, 18, 41), (1, 8, 7), (19, 61, 6), K512())
  }

  // The standard

  function BigSigma(p: Variant, r: (nat, nat, nat), x: nat): nat
    requires p.Within(r)
  {
    Xor(p.W(), Xor(p.W(), Rotr(p.W(), x, r.0), Rotr(p.W(), x, r.1)), Rotr(p.W(), x, r.2))
  }

  function SmallSigma(p: Variant, r: (nat, nat, nat), x: nat): nat
    requires p.Within(r)
  {
    Xor(p.W(), Xor(p.W(), Rotr(p.W(), x, r.0), Rotr(p.W(), x, r.1)), Shr(x, r.2))
  }

  function Sum(p: Variant, x: nat, y: nat): nat {
    Add(p.W(), x, y)
  }

  /** The bytes of word i of a block. */
  function WordBytes(p: Variant, block: seq<byte>, i: nat): (b: seq<byte>)
    requires i < 16 && |block| == p.BlockLength()
    ensures |b| == p.wordBytes
  {
    assert p.wordBytes * i + p.wordBytes <= |block| by { assert p.wordBytes * (15 - i) >= 0; }
    block[p.wordBytes * i..p.wordBytes * i + p.wordBytes]
  }

  /** Word t of the message schedule. */
  function Schedule(p: Variant, block: seq<byte>, t: nat): nat
    requires p.Ok() && |block| == p.BlockLength()
    decreases t, block
  {
    if t < 16 then BigEndian(WordBytes(p, block, t))
    else
      Sum(p, Sum(p, Sum(p, SmallSigma(p, p.small1, Schedule(p, block, t - 2)), Schedule(p, block, t - 7)),
                 SmallSigma(p, p.small0, Schedule(p, block, t - 15))),
          Schedule(p, block, t - 16))
  }

  /** T1 and T2 of one step. */
  function T1(p: Variant, s: seq<nat>, k: nat, w: nat): nat
    requires p.Ok() && |s| == 8
  {
    Sum(p, Sum(p, Sum(p, Sum(p, s[7], BigSigma(p, p.bigE, s[4])), Ch(p.W(), s[4], s[5], s[6])), k), w)
  }

  function T2(p: Variant, s: seq<nat>): nat
    requires p.Ok() && |s| == 8
  {
    Sum(p, BigSigma(p, p.bigA, s[0]), Maj(p.W(), s[0], s[1], s[2]))
  }

  /** One step of the loop over t: all eight working variables shift. */
  function Step(p: Variant, s: seq<nat>, k: nat, w: nat): (r: seq<nat>)
    requires p.Ok() && |s| == 8
    ensures |r| == 8
  {
    var t1 := T1(p, s, k, w);
    [Sum(p, t1, T2(p, s)), s[0], s[1], s[2], Sum(p, s[3], t1), s[4], s[5], s[6]]
  }

  function Rounds(p: Variant, s: seq<nat>, block: seq<byte>, t: nat): (r: seq<nat>)
    requires p.Ok() && |s| == 8 && |block| == p.BlockLength() && t <= p.rounds
    ensures |r| == 8
    decreases t, block
  {
    if t == 0 then s else Step(p, Rounds(p, s, block, t - 1), p.k[t - 1], Schedule(p, block, t - 1))
  }

  function Compress(p: Variant, s: seq<nat>, block: seq<byte>): (r: seq<nat>)
    requires p.Ok() && |s| == 8 && |block| == p.BlockLength()
    ensures |r| == 8
  {
    AddWords(p.W(), s, Rounds(p, s, block, p.rounds))
  }

  // The C code

  /** SCHEDULE, in the order of additions of the source. */
  function CodeWord(p: Variant, w16: nat, w7: nat, w15: nat, w2: nat): nat
    requires p.Ok()
  {
    Sum(p, Sum(p, Sum(p, w16, w7), SmallSigma(p, p.small0, w15)), SmallSigma(p, p.small1, w2))
  }

  lemma CodeWordIsNext(p: Variant, block: seq<byte>, t: nat)
    requires p.Ok() && |block| == p.BlockLength() && t >= 16
    ensures CodeWord(p, Schedule(p, block, t - 16), Schedule(p, block, t - 7), Schedule(p, block, t - 15),
            Schedule(p, block, t - 2))
         == Schedule(p, block, t)
  {
    FourSwap(p.W(), Schedule(p, block, t - 16), Schedule(p, block, t - 7),
             SmallSigma(p, p.small0, Schedule(p, block, t - 15)), SmallSigma(p, p.small1, Schedule(p, block, t - 2)));
  }

  /** LOADSCHEDULE. */
  function LoadSchedule(p: Variant, block: seq<byte>, i: nat): (x: nat)
    requires p.Ok() && i < 16 && |block| == p.BlockLength()
    ensures x == Schedule(p, block, i)
  {
    LoadsAreNumbers(p.W(), WordBytes(p, block, i));
    LoadByOrBig(p.W(), WordBytes(p, block, i), p.wordBytes)
  }

  method FullSchedule(p: Variant, block: seq<byte>) returns (schedule: array<nat>)
    requires p.Ok() && |block| == p.BlockLength()
    ensures fresh(schedule) && schedule.Length == p.rounds
    ensures forall j :: 0 <= j < p.rounds ==> schedule[j] == Schedule(p, block, j)
  {
    schedule := new nat[p.rounds];
    for i := 0 to 16
      invariant forall j :: 0 <= j < i ==> schedule[j] == Schedule(p, block, j)
    {
      schedule[i] := LoadSchedule(p, block, i);
    }
    for i := 16 to p.rounds
      invariant forall j :: 0 <= j < i ==> schedule[j] == Schedule(p, block, j)
    {
      StoreNext(p, schedule, block, i);
    }
  }

  method StoreNext(p: Variant, schedule: array<nat>, ghost block: seq<byte>, i: nat)
    requires p.Ok() && |block| == p.BlockLength() && 16 <= i < schedule.Length
    requires forall j :: 0 <= j < i ==> schedule[j] == Schedule(p, block, j)
    modifies schedule
    ensures forall j :: 0 <= j < i + 1 ==> schedule[j] == Schedule(p, block, j)
  {
    schedule[i] := NextWord(p, block, i, schedule[i - 16], schedule[i - 7], schedule[i - 15], schedule[i - 2]);
  }

  method NextWord(p: Variant, ghost block: seq<byte>, ghost i: nat, w16: nat, w7: nat, w15: nat, w2: nat)
    returns (x: nat)
    requires p.Ok() && |block| == p.BlockLength() && i >= 16
    requires w16 == Schedule(p, block, i - 16) && w7 == Schedule(p, block, i - 7)
    requires w15 == Schedule(p, block, i - 15) && w2 == Schedule(p, block, i - 2)
    ensures x == Schedule(p, block, i)
  {
    CodeWordIsNext(p, block, i);
    x := CodeWord(p, w16, w7, w15, w2);
  }

  /** The value ROUND adds to d: the old h plus everything that depends on e. */
  function CodeT(p: Variant, s: seq<nat>, k: nat, w: nat): nat
    requires p.Ok() && |s| == 8
  {
    Sum(p, Sum(p, Sum(p, Sum(p, s[7], BigSigma(p, p.bigE, s[4])), ChoiceByXor(p.W(), s[4], s[5], s[6])), k), w)
  }

  /** The value ROUND leaves in h. */
  function CodeH(p: Variant, s: seq<nat>, k: nat, w: nat): nat
    requires p.Ok() && |s| == 8
  {
    Sum(p, Sum(p, CodeT(p, s, k, w), BigSigma(p, p.bigA, s[0])), MajorityByOr(p.W(), s[0], s[1], s[2]))
  }

  /** In role order, the two stores of ROUND followed by the renaming make one step of the standard. */
  lemma CodeIsStep(p: Variant, s: seq<nat>, k: nat, w: nat)
    requires p.Ok() && |s| == 8
    ensures Step(p, s, k, w) == [CodeH(p, s, k, w), s[0], s[1], s[2], Sum(p, s[3], CodeT(p, s, k, w)), s[4], s[5], s[6]]
  {
    ChoiceByXorIsCh(p.W(), s[4], s[5], s[6]);
    MajorityByOrIsMaj(p.W(), s[0], s[1], s[2]);
    AddRegroups(p.W(), CodeT(p, s, k, w), BigSigma(p, p.bigA, s[0]), MajorityByOr(p.W(), s[0], s[1], s[2]));
  }

  /** ROUND under the argument names of round i. */
  method Round(p: Variant, v: array<nat>, i: nat, k: nat, w: nat)
    requires p.Ok() && v.Length == 8
    modifies v
    ensures View(v[..], i + 1) == Step(p, old(View(v[..], i)), k, w)
  {
    var s := View(v[..], i);
    CodeIsStep(p, s, k, w);
    StoreTwo(v, i, 3, Sum(p, s[3], CodeT(p, s, k, w)), 7, CodeH(p, s, k, w));
  }

  /** The array holds the message schedule of a block. */
  ghost predicate Scheduled(p: Variant, schedule: seq<nat>, block: seq<byte>)
    requires p.Ok() && |block| == p.BlockLength()
  {
    |schedule| == p.rounds && forall j :: 0 <= j < p.rounds ==> schedule[j] == Schedule(p, block, j)
  }

  /** What the working variables may be before line i: in role order, i rounds are done. */
  ghost function Before(p: Variant, v0: seq<nat>, block: seq<byte>, i: nat): iset<seq<nat>> {
    iset v: seq<nat> |
      && p.Ok() && |v0| == 8 && |block| == p.BlockLength() && i <= p.rounds
      && |v| == 8 && View(v, i) == Rounds(p, v0, block, i)
  }

  method RoundFromSchedule(p: Variant, v: array<nat>, schedule: array<nat>, i: nat, ghost v0: seq<nat>,
      ghost block: seq<byte>)
    requires p.Ok() && |block| == p.BlockLength() && i < p.rounds
    requires Scheduled(p, schedule[..], block) && v[..] in Before(p, v0, block, i)
    modifies v
    ensures v[..] in Before(p, v0, block, i + 1)
  {
    Round(p, v, i, p.k[i], schedule[i]);
  }

  method RoundsFromSchedule(p: Variant, v: array<nat>, schedule: array<nat>, block: seq<byte>)
    requires p.Ok() && v.Length == 8 && v != schedule && |block| == p.BlockLength()
    requires Scheduled(p, schedule[..], block)
    modifies v
    ensures v[..] == Rounds(p, old(v[..]), block, p.rounds)
  {
    WholeLaps(v[..], 0);
    RoundsInRoles(p, v, schedule, block, v[..]);
    WholeLaps(v[..], p.rounds);
  }

  method RoundsInRoles(p: Variant, v: array<nat>, schedule: array<nat>, ghost block: seq<byte>, ghost v0: seq<nat>)
    requires p.Ok() && v != schedule && |block| == p.BlockLength()
    requires Scheduled(p, schedule[..], block) && v[..] in Before(p, v0, block, 0)
    modifies v
    ensures v[..] in Before(p, v0, block, p.rounds)
  {
    for i := 0 to p.rounds
      invariant v[..] in Before(p, v0, block, i)
    {
      RoundFromSchedule(p, v, schedule, i, v0, block);
    }
  }

  /** sha256_compress and sha512_compress. */
  method CompressInPlace(p: Variant, state: array<nat>, block: seq<byte>)
    requires p.Ok() && state.Length == 8 && |block| == p.BlockLength()
    modifies state
    ensures state[..] == Compress(p, old(state[..]), block)
  {
    var schedule := FullSchedule(p, block);
    var v := CopyOf(state);
    RoundsFromSchedule(p, v, schedule, block);
    AddToState(p.W(), state, v);
  }

  // Round constants

  function K256(): (k: seq<nat>)
    ensures |k| == 64
  {
    K256a() + K256b() + K256c() + K256d()
  }

  function K256a(): (k: seq<nat>)
    ensures |k| == 16
  {
    [
      0x428A2F98, 0x71374491, 0xB5C0FBCF, 0xE9B5DBA5, 0x3956C25B, 0x59F111F1, 0x923F82A4, 0xAB1C5ED5,
      0xD807AA98, 0x12835B01, 0x243185BE, 0x550C7DC3, 0x72BE5D74, 0x80DEB1FE, 0x9BDC06A7, 0xC19BF174
    ]
  }

  function K256b(): (k: seq<nat>)
    ensures |k| == 16
  {
    [
      0xE49B69C1, 0xEFBE4786, 0x0FC19DC6, 0x240CA1CC, 0x2DE92C6F, 0x4A7484AA, 0x5CB0A9DC, 0x76F988DA,
      0x983E5152, 0xA831C66D, 0xB00327C8, 0xBF597FC7, 0xC6E00BF3, 0xD5A79147, 0x06CA6351, 0x14292967
    ]
  }

  function K256c(): (k: seq<nat>)
    ensures |k| == 16
  {
    [
      0x27B70A85, 0x2E1B2138, 0x4D2C6DFC, 0x53380D13, 0x650A7354, 0x766A0ABB, 0x81C2C92E, 0x92722C85,
      0xA2BFE8A1, 0xA81A664B, 0xC24B8B70, 0xC76C51A3, 0xD192E819, 0xD6990624, 0xF40E3585, 0x106AA070
    ]
  }

  function K256d(): (k: seq<nat>)
    ensures |k| == 16
  {
    [
      0x19A4C116, 0x1E376C08, 0x2748774C, 0x34B0BCB5, 0x391C0CB3, 0x4ED8AA4A, 0x5B9CCA4F, 0x682E6FF3,
      0x748F82EE, 0x78A5636F, 0x84C87814, 0x8CC70208, 0x90BEFFFA, 0xA4506CEB, 0xBEF9A3F7, 0xC67178F2
    ]
  }

  function K512(): (k: seq<nat>)
    ensures |k| == 80
  {
    K512a() + K512b() + K512c() + K512d() + K512e()
  }

  function K512a(): (k: seq<nat>)
    ensures |k| == 16
  {
    [
      0x428A2F98D728AE22, 0x7137449123EF65CD, 0xB5C0FBCFEC4D3B2F, 0xE9B5DBA58189DBBC,
      0x3956C25BF348B538, 0x59F111F1B605D019, 0x923F82A4AF194F9B, 0xAB1C5ED5DA6D8118,
      0xD807AA98A3030242, 0x12835B0145706FBE, 0x243185BE4EE4B28C, 0x550C7DC3D5FFB4E2,
      0x72BE5D74F27B896F, 0x80DEB1FE3B1696B1, 0x9BDC06A725C71235, 0xC19BF174CF692694
    ]
  }

  function K512b(): (k: seq<nat>)
    ensures |k| == 16
  {
    [
      0xE49B69C19EF14AD2, 0xEFBE4786384F25E3, 0x0FC19DC68B8CD5B5, 0x240CA1CC77AC9C65,
      0x2DE92C6F592B0275, 0x4A7484AA6EA6E483, 0x5CB0A9DCBD41FBD4, 0x76F988DA831153B5,
      0x983E5152EE66DFAB, 0xA831C66D2DB43210, 0xB00327C898FB213F, 0xBF597FC7BEEF0EE4,
      0xC6E00BF33DA88FC2, 0xD5A79147930AA725, 0x06CA6351E003826F, 0x142929670A0E6E70
    ]
  }

  function K512c(): (k: seq<nat>)
    ensures |k| == 16
  {
    [
      0x27B70A8546D22FFC, 0x2E1B21385C26C926, 0x4D2C6DFC5AC42AED, 0x53380D139D95B3DF,
      0x650A73548BAF63DE, 0x766A0ABB3C77B2A8, 0x81C2C92E47EDAEE6, 0x92722C851482353B,
      0xA2BFE8A14CF10364, 0xA81A664BBC423001, 0xC24B8B70D0F89791, 0xC76C51A30654BE30,
      0xD192E819D6EF5218, 0xD69906245565A910, 0xF40E35855771202A, 0x106AA07032BBD1B8
    ]
  }

  function K512d(): (k: seq<nat>)
    ensures |k| == 16
  {
    [
      0x19A4C116B8D2D0C8, 0x1E376C085141AB53, 0x2748774CDF8EEB99, 0x34B0BCB5E19B48A8,
      0x391C0CB3C5C95A63, 0x4ED8AA4AE3418ACB, 0x5B9CCA4F7763E373, 0x682E6FF3D6B2B8A3,
      0x748F82EE5DEFB2FC, 0x78A5636F43172F60, 0x84C87814A1F0AB72, 0x8CC702081A6439EC,
      0x90BEFFFA23631E28, 0xA4506CEBDE82BDE9, 0xBEF9A3F7B2C67915, 0xC67178F2E372532B
    ]
  }

  function K512e(): (k: seq<nat>)
    ensures |k| == 16
  {
    [
      0xCA273ECEEA26619C, 0xD186B8C721C0C207, 0xEADA7DD6CDE0EB1E, 0xF57D4F7FEE6ED178,
      0x06F067AA72176FBA, 0x0A637DC5A2C898A6, 0x113F9804BEF90DAE, 0x1B710B35131C471B,
      0x28DB77F523047D84, 0x32CAAB7B40C72493, 0x3C9EBE0A15C9BEBC, 0x431D67C49C100D4C,
      0x4CC5D4BECB3E42B6, 0x597F299CFC657E2A, 0x5FCB6FAB3AD6FAEC, 0x6C44198C4A475817
    ]
  }
}
