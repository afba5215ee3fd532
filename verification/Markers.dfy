/**
 The marker file of wavecuepoint.c: one sample position per line, in decimal. Lines end
 with CR, LF or CR LF; other characters than digits are ignored.
 */
module Markers {
  import opened MachineInt

  const CR: byte := 13
  const LF: byte := 10

  /** UINT32_MAX; the code only accepts values below it. */
  const LIMIT: nat := 0xFFFF_FFFF

  /** Places in the array of positions; the code does not check that they suffice. */
  const ROOM: nat := 1000

  predicate IsDigit(c: byte) {
    48 <= c <= 57
  }

  predicate IsBreak(c: byte) {
    c == CR || c == LF
  }

  /** The bytes the parser looks for, as characters. */
  lemma CharactersMeant(c: byte)
    ensures IsDigit(c) <==> '0' <= c as int as char <= '9'
    ensures IsBreak(c) <==> c as int as char == '\r' || c as int as char == '\n'
  {
  }

  function DigitValue(c: byte): nat {
    if IsDigit(c) then c as nat - 48 else 0
  }

  /** The number the digits stand for, as strtol computes it. */
  function Value(digits: seq<byte>): nat {
    if |digits| == 0 then 0
    else 10 * Value(digits[..|digits| - 1]) + DigitValue(digits[|digits| - 1])
  }

  /** The position a line contributes, given the digits kept of it. */
  function Accept(digits: seq<byte>): seq<nat> {
    if |digits| > 0 && Value(digits) < LIMIT then [Value(digits)] else []
  }

  /** At most ten digits of a line are kept. */
  function Keep(digits: seq<byte>, c: byte): seq<byte> {
    if IsDigit(c) && |digits| < 10 then digits + [c] else digits
  }

  /** The positions in the rest of a marker file, with the digits already kept of the current line. */
  function From(text: seq<byte>, digits: seq<byte>): seq<nat>
    decreases |text|
  {
    if |text| == 0 then Accept(digits)
    else if IsBreak(text[0]) then Accept(digits) + From(text[1..], [])
    else From(text[1..], Keep(digits, text[0]))
  }

  function Positions(text: seq<byte>): seq<nat> {
    From(text, [])
  }

  // The code

  lemma EndOfText(text: seq<byte>, digits: seq<byte>)
    ensures From(text[|text|..], digits) == Accept(digits) == Accept(digits) + []
    ensures Accept([]) == []
  {
  }

  lemma NextCharacter(text: seq<byte>, pos: nat, digits: seq<byte>)
    requires pos < |text|
    ensures From(text[pos..], digits) ==
            if IsBreak(text[pos]) then Accept(digits) + From(text[pos + 1..], [])
            else From(text[pos + 1..], Keep(digits, text[pos]))
    ensures text[pos] == LF || text[pos] == 0xFF ==> From(text[pos..], []) == From(text[pos + 1..], [])
  {
    assert text[pos..][1..] == text[pos + 1..];
  }

  /** fgetc until the end of the line or the file. */
  method ReadLine(text: seq<byte>, start: nat) returns (digits: seq<byte>, pos: nat, eof: bool)
    requires start <= |text|
    ensures start <= pos <= |text| && (eof ==> pos == |text|) && (!eof ==> start < pos)
    ensures From(text[start..], []) == Accept(digits) + if eof then [] else From(text[pos..], [])
  {
    digits := [];
    pos := start;
    ghost var all := From(text[start..], []);
    EndOfText(text, []);
    while pos < |text|
      invariant start <= pos <= |text|
      invariant all == From(text[pos..], digits)
    {
      var c := text[pos];
      NextCharacter(text, pos, digits);
      pos := pos + 1;
      if c == CR {
        if pos == |text| {
          assert all == Accept(digits) + [];
          return digits, pos, true;
        }
        NextCharacter(text, pos, []);
        // A byte 0xFF reads like the end of the file here and is dropped like a line feed.
        if text[pos] == LF || text[pos] == 0xFF {
          pos := pos + 1;
        }
        return digits, pos, false;
      }
      if c == LF {
        return digits, pos, false;
      }
      if IsDigit(c) && |digits| < 10 {
        digits := digits + [c];
      }
    }
    EndOfText(text, digits);
    return digits, pos, true;
  }

  /**
   The array as far as it is filled; the code checks no index, so overrun says whether it stores behind
   the last place.
   */
  method ReadMarkers(text: seq<byte>) returns (cueLocations: array<nat>, count: nat, overrun: bool)
    ensures fresh(cueLocations) && cueLocations.Length == ROOM
    ensures overrun <==> |Positions(text)| > 1000
    ensures count == Min(|Positions(text)|, ROOM) && cueLocations[..count] == Positions(text)[..count]
  {
    cueLocations := new nat[ROOM](_ => 0);
    count := 0;
    var pos, eof := 0, false;
    assert text[0..] == text;
    ghost var seen, rest := [], Positions(text);
    while !eof
      invariant count <= ROOM && pos <= |text|
      invariant cueLocations[..count] == seen && rest == if eof then [] else From(text[pos..], [])
      invariant Positions(text) == seen + rest
      decreases |text| - pos, !eof
    {
      var digits;
      digits, pos, eof := ReadLine(text, pos);
      rest := if eof then [] else From(text[pos..], []);
      Grows(Positions(text), seen, Accept(digits), rest);
      count, overrun := AddPosition(cueLocations, count, digits);
      if overrun {
        return cueLocations, count, true;
      }
      seen := seen + Accept(digits);
    }
    return cueLocations, count, false;
  }

  lemma Grows(all: seq<nat>, seen: seq<nat>, next: seq<nat>, rest: seq<nat>)
    requires all == seen + (next + rest)
    ensures all == (seen + next) + rest && |all| >= |seen| + |next| && all[..|seen|] == seen
  {
  }

  /** strtol and the range check; the position goes into the next place, if the array has one. */
  method AddPosition(cueLocations: array<nat>, count: nat, digits: seq<byte>) returns (more: nat, overrun: bool)
    requires cueLocations.Length == ROOM && count <= ROOM
    modifies cueLocations
    ensures overrun <==> count + |Accept(digits)| > ROOM
    ensures overrun ==> more == count == ROOM && cueLocations[..count] == old(cueLocations[..count])
    ensures !overrun ==> more <= ROOM && cueLocations[..more] == old(cueLocations[..count]) + Accept(digits)
  {
    more, overrun := count, false;
    if |digits| > 0 && Value(digits) < LIMIT {
      if count == ROOM {
        return count, true;
      }
      cueLocations[count] := Value(digits);
      more := count + 1;
    }
  }

  // What a marker file means

  datatype Line = Line(text: seq<byte>, end: seq<byte>) {
    predicate Ok() {
      NoBreak(text) && (end == [CR] || end == [LF] || end == [CR, LF])
    }
  }

  predicate NoBreak(text: seq<byte>) {
    forall i :: 0 <= i < |text| ==> !IsBreak(text[i])
  }

  /** The digits among some characters. */
  function DigitsOf(text: seq<byte>): seq<byte> {
    if |text| == 0 then [] else (if IsDigit(text[0]) then [text[0]] else []) + DigitsOf(text[1..])
  }

  function FirstTen(digits: seq<byte>): seq<byte> {
    if |digits| <= 10 then digits else digits[..10]
  }

  /** A file of whole lines. */
  function Document(lines: seq<Line>): seq<byte> {
    if |lines| == 0 then [] else lines[0].text + lines[0].end + Document(lines[1..])
  }

  /** Line by line, the position of its first ten digits. */
  function LinePositions(lines: seq<Line>): seq<nat> {
    if |lines| == 0 then [] else Accept(FirstTen(DigitsOf(lines[0].text))) + LinePositions(lines[1..])
  }

  /** Keeping a character now or counting it among the later digits comes to the same. */
  lemma KeepFirst(digits: seq<byte>, c: byte, more: seq<byte>)
    requires |digits| <= 10
    ensures FirstTen(digits + ((if IsDigit(c) then [c] else []) + more)) == FirstTen(Keep(digits, c) + more)
  {
    if IsDigit(c) {
      assert digits + ([c] + more) == (digits + [c]) + more;
      if |digits| == 10 {
        assert ((digits + [c]) + more)[..10] == digits && FirstTen(digits + more) == digits;
      }
    } else {
      assert [] + more == more;
    }
  }

  /** Up to the next line break, the parser collects digits. */
  lemma {:induction false} LineCollects(text: seq<byte>, rest: seq<byte>, digits: seq<byte>)
    requires NoBreak(text) && |digits| <= 10
    ensures From(text + rest, digits) == From(rest, FirstTen(digits + DigitsOf(text)))
    decreases |text|
  {
    if |text| == 0 {
      assert text + rest == rest && digits + DigitsOf(text) == digits;
    } else {
      var kept := Keep(digits, text[0]);
      assert (text + rest)[1..] == text[1..] + rest;
      assert From(text + rest, digits) == From(text[1..] + rest, kept);
      LineCollects(text[1..], rest, kept);
      KeepFirst(digits, text[0], DigitsOf(text[1..]));
    }
  }

  /** For every file of lines, whatever their ends, and whether or not the last one is ended. */
  lemma {:induction false} FileIsItsLines(lines: seq<Line>, last: seq<byte>)
    requires (forall i :: 0 <= i < |lines| ==> lines[i].Ok()) && NoBreak(last)
    ensures Positions(Document(lines) + last) == LinePositions(lines) + Accept(FirstTen(DigitsOf(last)))
    decreases |lines|
  {
    if |lines| == 0 {
      assert Document(lines) + last == last + [];
      LineCollects(last, [], []);
      assert [] + DigitsOf(last) == DigitsOf(last);
    } else {
      var line, rest := lines[0], Document(lines[1..]) + last;
      FileIsItsLines(lines[1..], last);
      Regrouped(line.text, line.end, Document(lines[1..]), last);
      FirstLine(line, rest);
      LineFirst(Accept(FirstTen(DigitsOf(line.text))), LinePositions(lines[1..]), Accept(FirstTen(DigitsOf(last))));
    }
  }

  lemma LineFirst(a: seq<nat>, b: seq<nat>, c: seq<nat>)
    ensures a + (b + c) == (a + b) + c
  {
  }

  lemma Regrouped(a: seq<byte>, b: seq<byte>, c: seq<byte>, d: seq<byte>)
    ensures (a + b + c) + d == a + (b + (c + d))
  {
  }

  lemma FirstLine(line: Line, rest: seq<byte>)
    requires line.Ok()
    ensures Positions(line.text + (line.end + rest)) == Accept(FirstTen(DigitsOf(line.text))) + Positions(rest)
  {
    LineCollects(line.text, line.end + rest, []);
    assert [] + DigitsOf(line.text) == DigitsOf(line.text);
    EndOfLine(line.end, rest, FirstTen(DigitsOf(line.text)));
  }

  /** Each of the three line ends ends the line once. */
  lemma EndOfLine(end: seq<byte>, rest: seq<byte>, digits: seq<byte>)
    requires end == [CR] || end == [LF] || end == [CR, LF]
    ensures From(end + rest, digits) == Accept(digits) + From(rest, [])
  {
    if |end| == 1 {
      assert (end + rest)[1..] == rest;
    } else {
      assert (end + rest)[1..] == [LF] + rest;
      assert ([LF] + rest)[1..] == rest;
    }
  }

  // When the array overruns

  /** The line has a digit, and its first ten digits stand for less than the limit. */
  predicate Contributes(text: seq<byte>) {
    |DigitsOf(text)| > 0 && Value(FirstTen(DigitsOf(text))) < LIMIT
  }

  function Contributors(lines: seq<Line>): nat {
    if |lines| == 0 then 0 else (if Contributes(lines[0].text) then 1 else 0) + Contributors(lines[1..])
  }

  lemma {:induction false} PositionsOfLines(lines: seq<Line>)
    ensures |LinePositions(lines)| == Contributors(lines)
    decreases |lines|
  {
    if |lines| > 0 {
      PositionsOfLines(lines[1..]);
    }
  }

  /** The parser stays inside its array if and only if at most as many lines contribute as it has places. */
  lemma RoomSuffices(lines: seq<Line>, last: seq<byte>)
    requires (forall i :: 0 <= i < |lines| ==> lines[i].Ok()) && NoBreak(last)
    ensures |Positions(Document(lines) + last)| <= 1000 <==>
            Contributors(lines) + (if Contributes(last) then 1 else 0) <= 1000
  {
    FileIsItsLines(lines, last);
    PositionsOfLines(lines);
  }

  /** Every text is a file of lines. */
  lemma {:induction false} EveryTextIsLines(text: seq<byte>) returns (lines: seq<Line>, last: seq<byte>)
    ensures (forall i :: 0 <= i < |lines| ==> lines[i].Ok()) && NoBreak(last)
    ensures text == Document(lines) + last
    decreases |text|
  {
    if |text| == 0 {
      return [], [];
    }
    lines, last := EveryTextIsLines(text[1..]);
    if IsBreak(text[0]) {
      lines := [Line([], [text[0]])] + lines;
    } else if |lines| == 0 {
      last := [text[0]] + last;
    } else {
      lines := [Line([text[0]] + lines[0].text, lines[0].end)] + lines[1..];
    }
  }

  function Zeros(n: nat): seq<Line> {
    seq(n, _ => Line([48], [LF]))
  }

  lemma {:induction false} ZerosContribute(n: nat)
    ensures Contributors(Zeros(n)) == n
    decreases n
  {
    if n > 0 {
      ZerosContribute(n - 1);
      assert Zeros(n)[1..] == Zeros(n - 1);
      assert Zeros(n)[0].text[1..] == [];
      assert DigitsOf(Zeros(n)[0].text) == [48];
      assert Value([48]) == 10 * Value([]);
    }
  }

  /** One line too many: 1001 lines with a zero overrun the array, 1000 fill it. */
  lemma ZerosOverrun()
    ensures |Positions(Document(Zeros(1001)) + [])| > 1000
    ensures |Positions(Document(Zeros(1000)) + [])| == 1000
  {
    ZerosContribute(ROOM + 1);
    ZerosContribute(ROOM);
    RoomSuffices(Zeros(ROOM + 1), []);
    FileIsItsLines(Zeros(ROOM), []);
    PositionsOfLines(Zeros(ROOM));
  }

  // Printing in decimal

  function Decimal(v: nat): (digits: seq<byte>)
    ensures |digits| > 0
  {
    (if v < 10 then [] else Decimal(v / 10)) + [(48 + v % 10) as byte]
  }

  function Pow10(n: nat): nat {
    if n == 0 then 1 else 10 * Pow10(n - 1)
  }

  lemma {:induction false} DecimalReads(v: nat)
    ensures Value(Decimal(v)) == v
    decreases v
  {
    if v < 10 {
      SmallDecimal(v);
    } else {
      var less := v / 10;
      DecimalReads(less);
      OneMoreDigit(v, less, Decimal(less));
    }
  }

  lemma OneMoreDigit(v: nat, less: nat, digits: seq<byte>)
    requires v >= 10 && less == v / 10 && digits == Decimal(less) && Value(digits) == less
    ensures Value(Decimal(v)) == v
  {
    DecimalStep(v);
  }

  lemma {:induction false} DecimalLength(v: nat, n: nat)
    requires n > 0 && v < Pow10(n)
    ensures |Decimal(v)| <= n
    decreases v, n
  {
    if v < 10 {
      SmallDecimal(v);
    } else {
      DecimalStep(v);
      OneDigitLess(v, n);
      DecimalLength(v / 10, n - 1);
    }
  }

  lemma ValueOfMore(digits: seq<byte>, c: byte)
    requires IsDigit(c)
    ensures Value(digits + [c]) == 10 * Value(digits) + (c as nat - 48)
  {
    assert (digits + [c])[..|digits|] == digits;
  }

  lemma SmallDecimal(v: nat)
    requires v < 10
    ensures |Decimal(v)| == 1 && Value(Decimal(v)) == v
  {
    ValueOfMore([], (48 + v) as byte);
    assert Decimal(v) == [] + [(48 + v) as byte];
  }

  lemma DecimalStep(v: nat)
    requires v >= 10
    ensures Value(Decimal(v)) == 10 * Value(Decimal(v / 10)) + v % 10 && |Decimal(v)| == |Decimal(v / 10)| + 1
  {
    ValueOfMore(Decimal(v / 10), (48 + v % 10) as byte);
  }

  lemma OneDigitLess(v: nat, n: nat)
    requires n > 0 && 10 <= v < Pow10(n)
    ensures n > 1 && v / 10 < Pow10(n - 1)
  {
    var less := Pow10(n - 1);
    assert v < 10 * less && Pow10(0) == 1;
  }

  /** A line that shows the value in decimal, with any noise around and between its digits. */
  ghost predicate Shows(line: seq<byte>, v: nat) {
    NoBreak(line) && DigitsOf(line) == Decimal(v)
  }

  /** The values that fit below the limit, in order. */
  function Kept(values: seq<nat>): seq<nat> {
    if |values| == 0 then []
    else (if values[0] < LIMIT then [values[0]] else []) + Kept(values[1..])
  }

  lemma ShownValue(line: seq<byte>, v: nat)
    requires Shows(line, v) && v < 10_000_000_000
    ensures Accept(FirstTen(DigitsOf(line))) == if v < LIMIT then [v] else []
  {
    TenPowers();
    DecimalReads(v);
    DecimalLength(v, 10);
  }

  lemma TenPowers()
    ensures Pow10(10) == 10_000_000_000
  {
    assert Pow10(5) == 100_000;
    assert Pow10(10) == 100_000 * Pow10(5);
  }

  /** Each line shows a value of at most ten digits. */
  ghost predicate AllShow(lines: seq<Line>, values: seq<nat>) {
    && |lines| == |values|
    && forall i :: 0 <= i < |values| ==> values[i] < 10_000_000_000 && Shows(lines[i].text, values[i])
  }

  lemma {:induction false} LinesShow(values: seq<nat>, lines: seq<Line>)
    requires AllShow(lines, values)
    ensures LinePositions(lines) == Kept(values)
    decreases |values|
  {
    if |values| > 0 {
      ShownValue(lines[0].text, values[0]);
      LinesShow(values[1..], lines[1..]);
    }
  }

  /**
   Printed values of up to ten digits come back in order, except those that are not below
   the limit: the code refuses 4294967295 itself although it fits 32 bits.
   */
  lemma RoundTrip(values: seq<nat>, lines: seq<Line>, last: seq<byte>)
    requires AllShow(lines, values)
    requires (forall i :: 0 <= i < |lines| ==> lines[i].Ok()) && NoBreak(last) && DigitsOf(last) == []
    ensures Positions(Document(lines) + last) == Kept(values)
  {
    FileIsItsLines(lines, last);
    LinesShow(values, lines);
  }

  /** The same when the last line has no line end. */
  lemma RoundTripUnended(values: seq<nat>, lines: seq<Line>, last: seq<byte>, v: nat)
    requires AllShow(lines, values)
    requires (forall i :: 0 <= i < |lines| ==> lines[i].Ok()) && Shows(last, v) && v < 10_000_000_000
    ensures Positions(Document(lines) + last) == Kept(values) + Kept([v])
  {
    FileIsItsLines(lines, last);
    LinesShow(values, lines);
    ShownValue(last, v);
  }

  lemma {:induction false} DecimalDigits(v: nat)
    ensures NoBreak(Decimal(v)) && forall i :: 0 <= i < |Decimal(v)| ==> IsDigit(Decimal(v)[i])
    decreases v
  {
    if v >= 10 {
      DecimalDigits(v / 10);
    }
  }

  lemma {:induction false} AllDigits(text: seq<byte>)
    requires forall i :: 0 <= i < |text| ==> IsDigit(text[i])
    ensures DigitsOf(text) == text
    decreases |text|
  {
    if |text| > 0 {
      AllDigits(text[1..]);
      assert text == [text[0]] + text[1..];
    }
  }

  lemma LineRefused(digits: seq<byte>)
    requires NoBreak(digits) && DigitsOf(digits) == digits && |digits| <= 10 && Value(digits) >= LIMIT
    ensures Positions(digits + [LF]) == []
  {
    DigitsOnly(digits);
  }

  /** Behind ten digits, the others of a line are ignored. */
  lemma LaterDigitsIgnored(first: seq<byte>, later: seq<byte>)
    requires |first| == 10 && forall i :: 0 <= i < 10 ==> IsDigit(first[i])
    requires forall i :: 0 <= i < |later| ==> IsDigit(later[i])
    ensures Positions(first + later + [LF]) == Positions(first + [LF])
  {
    AllDigits(first);
    AllDigits(first + later);
    DigitsOnly(first);
    DigitsOnly(first + later);
    assert FirstTen(first + later) == first;
  }

  lemma DigitsOnly(digits: seq<byte>)
    requires NoBreak(digits) && DigitsOf(digits) == digits
    ensures Positions(digits + [LF]) == Accept(FirstTen(digits))
  {
    FirstLine(Line(digits, [LF]), []);
    assert digits + ([LF] + []) == digits + [LF];
    assert Accept(FirstTen(digits)) + Positions([]) == Accept(FirstTen(digits));
  }

  /** 4294967295 on a line of its own gives no position, although it fits 32 bits. */
  lemma LargestIsRefused(v: nat)
    requires v == 0xFFFF_FFFF
    ensures Positions(Decimal(v) + [LF]) == []
  {
    var digits := Decimal(v);
    DecimalDigits(v);
    AllDigits(digits);
    TenPowers();
    DecimalLength(v, 10);
    DecimalReads(v);
    LineRefused(digits);
  }

  /** The round trip is exact if and only if every value is below the limit. */
  lemma {:induction false} KeptAll(values: seq<nat>)
    ensures Kept(values) == values <==> forall i :: 0 <= i < |values| ==> values[i] < 4_294_967_295
    ensures |Kept(values)| <= |values|
    decreases |values|
  {
    if |values| > 0 {
      KeptAll(values[1..]);
      if values[0] < LIMIT {
        assert Kept(values)[1..] == Kept(values[1..]);
        assert values == [values[0]] + values[1..];
        if Kept(values) == values {
          assert forall i :: 0 <= i < |values[1..]| ==> values[1..][i] < LIMIT;
          assert forall i :: 0 < i < |values| ==> values[i] == values[1..][i - 1];
        }
      }
    }
  }
}
