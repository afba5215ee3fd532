/**
 SHA-1 compression: the standard's definition (sections 4.1.1 and 6.1.2 of FIPS 180-4),
 the C code with an 80-word schedule and the C code with a 16-word circular one. Each
 round method stands for one line of the unrolled macro lists.
 */
module Sha1 {
  import opened MachineInt
  import opened Renaming
  import opened Words
  import opened Loads

  const W: nat := 32

  // The standard

  /** Word i of the block. */
  function Word(block: seq<byte>, i: nat): nat
    requires 4 * i + 4 <= |block|
  {
    BigEndian(block[4 * i..4 * i + 4])
  }

  /** Word t of the message schedule. */
  function Schedule(block: seq<byte>, t: nat): nat
    requires |block| == 64
  {
    if t < 16 then Word(block, t)
    else Rotl(W, Mixed(Schedule(block, t - 3), Schedule(block, t - 8), Schedule(block, t - 14),
        Schedule(block, t - 16)), 1)
  }

  function Mixed(x: nat, y: nat, z: nat, u: nat): nat {
    Xor(W, Xor(W, Xor(W, x, y), z), u)
  }

  function F(t: nat, x: nat, y: nat, z: nat): nat {
    if t < 20 then Ch(W, x, y, z)
    else if t < 40 then Parity(W, x, y, z)
    else if t < 60 then Maj(W, x, y, z)
    else Parity(W, x, y, z)
  }

  function K(t: nat): nat {
    if t < 20 then 0x5A827999 else if t < 40 then 0x6ED9EBA1 else if t < 60 then 0x8F1BBCDC else 0xCA62C1D6
  }

  /** One step of the loop over t: all five working variables shift. */
  function Step(s: seq<nat>, t: nat, w: nat): (r: seq<nat>)
    requires |s| == 5
    ensures |r| == 5
  {
    var T := Add(W, Add(W, Add(W, Add(W, Rotl(W, s[0], 5), F(t, s[1], s[2], s[3])), s[4]), K(t)), w);
    [T, s[0], Rotl(W, s[1], 30), s[2], s[3]]
  }

  function Rounds(s: seq<nat>, block: seq<byte>, t: nat): (r: seq<nat>)
    requires |s| == 5 && |block| == 64
    ensures |r| == 5
  {
    if t == 0 then s else Step(Rounds(s, block, t - 1), t - 1, Schedule(block, t - 1))
  }

  function Compress(s: seq<nat>, block: seq<byte>): (r: seq<nat>)
    requires |s| == 5 && |block| == 64
    ensures |r| == 5
  {
    AddWords(W, s, Rounds(s, block, 80))
  }

  // The C code

  /** The expression that round i of the source passes to ROUNDTAIL. */
  function CodeF(i: nat, b: nat, c: nat, d: nat): nat {
    if i < 20 then ChoiceByOr(W, b, c, d)
    else if i < 40 then Parity(W, b, c, d)
    else if i < 60 then Maj(W, b, c, d)
    else Parity(W, b, c, d)
  }

  /** ROUNDTAIL under the argument names of round i: two of the five variables change. */
  method RoundTail(v: array<nat>, i: nat, f: nat, k: nat, w: nat)
    requires v.Length == 5
    modifies v
    ensures var s := old(View(v[..], i));
            View(v[..], i + 1) == [Add(W, Add(W, Add(W, Add(W, s[4], Rotl(W, s[0], 5)), f), k), w), s[0],
                Rotl(W, s[1], 30), s[2], s[3]]
  {
    var a, b, e := v[Role(5, i, 0)], v[Role(5, i, 1)], v[Role(5, i, 4)];
    StoreTwo(v, i, 4, Add(W, Add(W, Add(W, Add(W, e, Rotl(W, a, 5)), f), k), w), 1, Rotl(W, b, 30));
  }

  /** One round of the source is the step of the standard in terms of roles. */
  method Round(v: array<nat>, i: nat, w: nat)
    requires v.Length == 5
    modifies v
    ensures View(v[..], i + 1) == Step(old(View(v[..], i)), i, w)
  {
    ghost var s := View(v[..], i);
    var f := CodeF(i, v[Role(5, i, 1)], v[Role(5, i, 2)], v[Role(5, i, 3)]);
    ChoiceByOrIsCh(W, s[1], s[2], s[3]);
    SumOrder(s[4], Rotl(W, s[0], 5), f);
    RoundTail(v, i, f, K(i), w);
  }

  /** The source adds e first, the standard third. */
  lemma SumOrder(e: nat, r: nat, f: nat)
    ensures Add(W, Add(W, e, r), f) == Add(W, Add(W, r, f), e)
  {
    AddLeft(W, e, r, f);
    AddLeft(W, r, f, e);
  }

  /** LOADSCHEDULE. */
  function LoadSchedule(block: seq<byte>, i: nat): (x: nat)
    requires i < 16 && |block| == 64
    ensures x == Word(block, i)
  {
    LoadsAreNumbers(W, block[4 * i..4 * i + 4]);
    LoadByOrBig(W, block[4 * i..4 * i + 4], 4)
  }

  method FullSchedule(block: seq<byte>) returns (schedule: array<nat>)
    requires |block| == 64
    ensures fresh(schedule) && schedule.Length == 80
    ensures forall j :: 0 <= j < 80 ==> schedule[j] == Schedule(block, j)
  {
    schedule := new nat[80];
    for i := 0 to 16
      invariant forall j :: 0 <= j < i ==> schedule[j] == Schedule(block, j)
    {
      schedule[i] := LoadSchedule(block, i);
    }
    for i := 16 to 80
      invariant forall j :: 0 <= j < i ==> schedule[j] == Schedule(block, j)
    {
      var temp := Mixed(schedule[i - 3], schedule[i - 8], schedule[i - 14], schedule[i - 16]);
      schedule[i] := Rotl(W, temp, 1);
    }
  }

  method RoundsFromSchedule(v: array<nat>, schedule: array<nat>, block: seq<byte>)
    requires v.Length == 5 && schedule.Length == 80 && v != schedule && |block| == 64
    requires forall j :: 0 <= j < 80 ==> schedule[j] == Schedule(block, j)
    modifies v
    ensures v[..] == Rounds(old(v[..]), block, 80)
  {
    WholeLaps(v[..], 0);
    for i := 0 to 80
      invariant View(v[..], i) == Rounds(old(v[..]), block, i)
    {
      Round(v, i, schedule[i]);
    }
    WholeLaps(v[..], 80);
  }

  /** sha1-naive.c: the whole schedule first, then 80 rounds. */
  method CompressNaive(state: array<nat>, block: seq<byte>)
    requires state.Length == 5 && |block| == 64
    modifies state
    ensures state[..] == Compress(old(state[..]), block)
  {
    var schedule := FullSchedule(block);
    var v := CopyOf(state);
    RoundsFromSchedule(v, schedule, block);
    AddToState(W, state, v);
  }

  /** The circular buffer holds the last sixteen schedule words before word i. */
  ghost predicate RingHolds(ring: seq<nat>, block: seq<byte>, i: nat) {
    && |ring| == 16 && |block| == 64
    && forall j: nat {:trigger Schedule(block, j)} :: i - 16 <= j < i ==> ring[j % 16] == Schedule(block, j)
  }

  method RoundsWithRing(v: array<nat>, block: seq<byte>)
    requires v.Length == 5 && |block| == 64
    modifies v
    ensures v[..] == Rounds(old(v[..]), block, 80)
  {
    var schedule := new nat[16];
    WholeLaps(v[..], 0);
    for i := 0 to 80
      invariant RingHolds(schedule[..], block, i)
      invariant View(v[..], i) == Rounds(old(v[..]), block, i)
    {
      RingRound(v, schedule, block, i);
    }
    WholeLaps(v[..], 80);
  }

  /** One line of the fast macro list: the schedule word, then the round. */
  method RingRound(v: array<nat>, schedule: array<nat>, block: seq<byte>, i: nat)
    requires v.Length == 5 && schedule.Length == 16 && v != schedule && RingHolds(schedule[..], block, i)
    modifies v, schedule
    ensures RingHolds(schedule[..], block, i + 1)
    ensures View(v[..], i + 1) == Step(old(View(v[..], i)), i, Schedule(block, i))
  {
    ghost var before := v[..];
    NextWord(schedule, block, i);
    assert v[..] == before;
    ghost var ring := schedule[..];
    Round(v, i, schedule[Slot16(i)]);
    assert schedule[..] == ring;
  }

  /** sha1-fast.c: each round computes its own schedule word into a circular buffer. */
  method CompressFast(state: array<nat>, block: seq<byte>)
    requires state.Length == 5 && |block| == 64
    modifies state
    ensures state[..] == Compress(old(state[..]), block)
  {
    var v := CopyOf(state);
    RoundsWithRing(v, block);
    AddToState(W, state, v);
  }

  /** LOADSCHEDULE for the first 16 words, SCHEDULE for the others. */
  method NextWord(schedule: array<nat>, block: seq<byte>, i: nat)
    requires schedule.Length == 16 && RingHolds(schedule[..], block, i)
    modifies schedule
    ensures RingHolds(schedule[..], block, i + 1)
    ensures schedule[Slot16(i)] == Schedule(block, i)
  {
    ghost var before := schedule[..];
    var x: nat;
    if i < 16 {
      x := LoadSchedule(block, i);
    } else {
      RingWords(schedule[..], block, i);
      var temp := Mixed(schedule[Slot16(i - 3)], schedule[Slot16(i - 8)], schedule[Slot16(i - 14)],
          schedule[Slot16(i - 16)]);
      x := Rotl(W, temp, 1);
    }
    schedule[Slot16(i)] := x;
    RingMoves(before, block, i);
    assert schedule[..] == before[i % 16 := x];
  }

  /** Four words of the ring make the next schedule word. */
  lemma RingWords(ring: seq<nat>, block: seq<byte>, i: nat)
    requires RingHolds(ring, block, i) && i >= 16
    ensures Schedule(block, i) ==
            Rotl(W, Mixed(ring[(i - 3) % 16], ring[(i - 8) % 16], ring[(i - 14) % 16], ring[(i - 16) % 16]), 1)
  {
    var a, b, c, d := Schedule(block, i - 3), Schedule(block, i - 8), Schedule(block, i - 14), Schedule(block, i - 16);
    assert ring[(i - 3) % 16] == a && ring[(i - 8) % 16] == b && ring[(i - 14) % 16] == c && ring[(i - 16) % 16] == d;
  }

  lemma RingMoves(ring: seq<nat>, block: seq<byte>, i: nat)
    requires RingHolds(ring, block, i)
    ensures RingHolds(ring[i % 16 := Schedule(block, i)], block, i + 1)
  {
    var next := ring[i % 16 := Schedule(block, i)];
    forall j: nat | i + 1 - 16 <= j < i + 1
      ensures next[j % 16] == Schedule(block, j)
    {
      if j < i { SlotsDiffer(i, j); }
    }
  }
}
