/**
 What the calls of the two threads on a JACK ring buffer deliver, from the call to its
 return, whatever the other thread does meanwhile.
 */
module JackCalls {
  import opened MachineInt
  import opened JackSpace
  import opened JackConcurrent

  // Reads and peeks

  /** What a read or peek call owes: n bytes of the stream from a position on, behind what was handed over before. */
  datatype Due = Due(peek: bool, position: nat, n: nat, received: seq<byte>, peeks: seq<Peeked>)

  /** The call is in progress, and nothing has been handed over yet. */
  ghost predicate Owed(d: Due, s: State) {
    && s.reader.Reading? && s.reader.peek == d.peek && s.reader.n1 + s.reader.n2 == d.n
    && s.consumed - Passed(s.reader) == d.position
    && s.received == d.received && s.peeks == d.peeks
  }

  /** The call has returned with exactly those bytes; a read has consumed them, a peek has not. */
  ghost predicate Delivered(d: Due, s: State) {
    && s.reader.ReaderIdle? && d.position + d.n <= |s.accepted|
    && var bytes := s.accepted[d.position..d.position + d.n];
       if d.peek then
         s.consumed == d.position && s.received == d.received && s.peeks == d.peeks + [Peeked(d.position, bytes)]
       else s.consumed == d.position + d.n && s.received == d.received + bytes && s.peeks == d.peeks
  }

  /** What the reader has in its destination, when it is complete, is the part of the stream that is due. */
  lemma DestinationIsDue(d: Due, s: State)
    requires Inv(s) && Owed(d, s) && !ReaderCopying(s.reader) && (s.reader.second || s.reader.n2 == 0)
    ensures d.position + d.n <= |s.accepted| && s.reader.dest == s.accepted[d.position..d.position + d.n]
  {
    assert At(s.reader.dest, s.accepted, s.consumed - Passed(s.reader));
    assert |s.reader.dest| == d.n;
  }

  /** The last step of a call hands over what is due. */
  lemma LastStepDelivers(d: Due, s: State)
    requires Inv(s) && Owed(d, s) && !ReaderCopying(s.reader) && (s.reader.second || s.reader.n2 == 0)
    ensures Enabled(s, StepReader) && Delivered(d, Next(s, StepReader))
  {
    DestinationIsDue(d, s);
    NextInv(s, StepReader);
  }

  /** The other steps of the call hand over nothing. */
  lemma StepOwes(d: Due, s: State)
    requires Inv(s) && Owed(d, s) && (ReaderCopying(s.reader) || (!s.reader.second && s.reader.n2 > 0))
    ensures Enabled(s, StepReader) && Owed(d, Next(s, StepReader))
  {
    NextInv(s, StepReader);
  }

  predicate OfReader(e: Event) {
    e.CallRead? || e.StepReader? || e.TakeReadVector? || e.Load? || e.AdvanceReader?
  }

  /** The writer thread changes nothing that a reader has or is owed. */
  lemma WriterOwesNothing(s: State, e: Event)
    requires Enabled(s, e) && !OfReader(e)
    ensures var t := Next(s, e);
            && t.reader == s.reader && t.consumed == s.consumed && t.received == s.received && t.peeks == s.peeks
            && s.accepted <= t.accepted
  {
  }

  predicate ReaderStarts(e: Event) {
    e.CallRead? || e.TakeReadVector?
  }

  lemma EventOwes(d: Due, s: State, e: Event)
    requires Inv(s) && Enabled(s, e) && !ReaderStarts(e) && (Owed(d, s) || Delivered(d, s))
    ensures Owed(d, Next(s, e)) || Delivered(d, Next(s, e))
  {
    if !OfReader(e) {
      WriterOwes(d, s, e);
    } else {
      StepOrDelivery(d, s, e);
    }
  }

  /** An event of the writer thread leaves a debt as it is. */
  lemma WriterOwes(d: Due, s: State, e: Event)
    requires Enabled(s, e) && !OfReader(e) && (Owed(d, s) || Delivered(d, s))
    ensures Owed(d, Next(s, e)) || Delivered(d, Next(s, e))
  {
    WriterOwesNothing(s, e);
    DueStays(d, s, Next(s, e));
  }

  lemma DueStays(d: Due, s: State, t: State)
    requires t.reader == s.reader && t.consumed == s.consumed && t.received == s.received && t.peeks == s.peeks
    requires s.accepted <= t.accepted
    ensures Owed(d, s) ==> Owed(d, t)
    ensures Delivered(d, s) ==> Delivered(d, t)
  {
    if Delivered(d, s) {
      assert t.accepted[d.position..d.position + d.n] == s.accepted[d.position..d.position + d.n];
    }
  }

  lemma StepOrDelivery(d: Due, s: State, e: Event)
    requires Inv(s) && Enabled(s, e) && OfReader(e) && !ReaderStarts(e) && (Owed(d, s) || Delivered(d, s))
    ensures Owed(d, Next(s, e)) || Delivered(d, Next(s, e))
  {
    assert e == StepReader && Owed(d, s);
    if ReaderCopying(s.reader) || (!s.reader.second && s.reader.n2 > 0) {
      StepOwes(d, s);
    } else {
      LastStepDelivers(d, s);
    }
  }

  lemma {:induction false} CallRuns(d: Due, s: State, schedule: seq<Event>, t: State)
    requires Inv(s) && Runs(s, schedule, t) && (Owed(d, s) || Delivered(d, s))
    requires forall e :: e in schedule ==> !ReaderStarts(e)
    ensures Owed(d, t) || Delivered(d, t)
    decreases |schedule|
  {
    if |schedule| > 0 {
      assert schedule[0] in schedule;
      NextInv(s, schedule[0]);
      EventOwes(d, s, schedule[0]);
      CallRuns(d, Next(s, schedule[0]), schedule[1..], t);
    }
  }

  /** What a call for cnt bytes owes at its start. */
  ghost function DueAt(s: State, cnt: nat, peek: bool): Due
    requires s.consumed <= s.written
  {
    Due(peek, s.consumed, Min(cnt, s.written - s.consumed), s.received, s.peeks)
  }

  lemma CallOwes(s: State, cnt: nat, peek: bool)
    requires Inv(s) && s.reader.ReaderIdle?
    ensures if s.written == s.consumed then BeginRead(s, cnt, peek) == s
            else Owed(DueAt(s, cnt, peek), BeginRead(s, cnt, peek))
  {
    DistanceIsCount(s);
    SplitCovers(s.g, s.rp, Min(cnt, s.written - s.consumed));
  }

  /**
   For every schedule in which the reader takes the steps of its call: a read or peek of cnt bytes hands over as many
   bytes of the stream as were published at the call and asked for, from the consumed total on, and those bytes only.
   */
  lemma ReadCallDelivers(s: State, cnt: nat, peek: bool, schedule: seq<Event>, t: State)
    requires Inv(s) && s.reader.ReaderIdle? && s.consumed < s.written
    requires Runs(BeginRead(s, cnt, peek), schedule, t) && forall e :: e in schedule ==> !ReaderStarts(e)
    requires Count(schedule, StepReader) == ReaderStepsLeft(BeginRead(s, cnt, peek).reader)
    ensures Delivered(DueAt(s, cnt, peek), t)
  {
    var begun := Next(s, CallRead(cnt, peek));
    NextInv(s, CallRead(cnt, peek));
    CallOwes(s, cnt, peek);
    CallRuns(DueAt(s, cnt, peek), begun, schedule, t);
    ReaderIsWaitFree(begun, schedule, t);
  }

  /** A load through place i of a read vector hands over byte i of the unread stream. */
  lemma LoadDelivers(s: State, i: nat)
    requires Inv(s) && Asks(s, Load(i))
    ensures Enabled(s, Load(i)) && s.consumed + i < |s.accepted|
    ensures Next(s, Load(i)) == s.(peeks := s.peeks + [Peeked(s.consumed + i, [s.accepted[s.consumed + i]])])
  {
    LoadedIsStream(s, i);
  }

  // Writes

  predicate WriterStarts(e: Event) {
    e.CallWrite? || e.TakeWriteVector?
  }

  lemma {:induction false} AcceptedStays(s: State, schedule: seq<Event>, t: State)
    requires Runs(s, schedule, t) && !s.writer.Filling? && forall e :: e in schedule ==> !WriterStarts(e)
    ensures t.accepted == s.accepted && !t.writer.Filling?
    decreases |schedule|
  {
    if |schedule| > 0 {
      assert schedule[0] in schedule;
      AcceptedStays(Next(s, schedule[0]), schedule[1..], t);
    }
  }

  /**
   For every schedule in which the writer takes the steps of its call: a write call has published the longest prefix
   of its data that fitted at the call, behind everything accepted before.
   */
  lemma WriteCallPublishes(s: State, src: seq<byte>, schedule: seq<Event>, t: State)
    requires Inv(s) && s.writer.WriterIdle?
    requires Runs(BeginWrite(s, src), schedule, t) && forall e :: e in schedule ==> !WriterStarts(e)
    requires Count(schedule, StepWriter) == WriterStepsLeft(BeginWrite(s, src).writer)
    ensures var n := Min(|src|, s.g.size - 1 - (s.written - s.consumed));
            t.writer.WriterIdle? && t.accepted == s.accepted + src[..n] && t.written == s.written + n
  {
    var begun := Next(s, CallWrite(src));
    NextInv(s, CallWrite(src));
    WriteCallAccepts(s, src);
    AcceptedStays(begun, schedule, t);
    WriterIsWaitFree(begun, schedule, t);
    RunsInv(begun, schedule, t);
  }

  /** The vector in use still knows what was stored to its place i. */
  ghost predicate Remembers(s: State, space: Slots, i: nat, x: byte, accepted: seq<byte>) {
    && s.writer.Filling? && s.writer.space == space && i in s.writer.stored && s.writer.stored[i] == x
    && s.accepted == accepted
  }

  lemma {:induction false} StoreRemembered(s: State, space: Slots, i: nat, x: byte, schedule: seq<Event>, t: State)
    requires Runs(s, schedule, t) && Remembers(s, space, i, x, s.accepted)
    requires forall e :: e in schedule ==> !e.AdvanceWriter? && (e.Store? ==> e.i != i)
    ensures Remembers(t, space, i, x, s.accepted)
    decreases |schedule|
  {
    if |schedule| > 0 {
      assert schedule[0] in schedule;
      StoreRemembered(Next(s, schedule[0]), space, i, x, schedule[1..], t);
    }
  }

  /**
   The last byte stored to place i of a write vector is byte i of what the advance publishes, whatever else is
   stored and whatever the reader does in between.
   */
  lemma LastStoreIsPublished(s: State, i: nat, x: byte, schedule: seq<Event>, t: State, n: nat)
    requires Inv(s) && Enabled(s, Store(i, x)) && Runs(Next(s, Store(i, x)), schedule, t)
    requires forall e :: e in schedule ==> !e.AdvanceWriter? && (e.Store? ==> e.i != i)
    requires i < n <= Total(s.writer.space)
    ensures Asks(t, AdvanceWriter(n)) && Enabled(t, AdvanceWriter(n))
    ensures var accepted := Next(t, AdvanceWriter(n)).accepted;
            s.accepted <= accepted && |accepted| == |s.accepted| + n && accepted[|s.accepted| + i] == x
  {
    NextInv(s, Store(i, x));
    StoreRemembered(Next(s, Store(i, x)), s.writer.space, i, x, schedule, t);
    RunsInv(Next(s, Store(i, x)), schedule, t);
    AdvancePublishesStores(t, n, i);
  }

  // What the threads touch

  /** A slot whose byte an event changes was claimed for storing. */
  lemma StoresWereClaimed(s: State, e: Event, x: nat)
    requires Inv(s) && Enabled(s, e) && x < |s.buf|
    ensures |Next(s, e).buf| == |s.buf|
    ensures Next(s, e).buf[x] != s.buf[x] ==> !OfReader(e) && WillStore(s, x)
  {
  }

  /** The two buffers agree on the slots that are claimed for loading. */
  ghost predicate SameClaims(s: State, buf: seq<byte>) {
    |buf| == |s.buf| && forall x :: 0 <= x < |buf| && WillLoad(s, x) ==> buf[x] == s.buf[x]
  }

  /** With the slots that were claimed for loading as they are, the others do not matter to the reader thread. */
  lemma LoadsWereClaimed(s: State, e: Event, buf: seq<byte>)
    requires Inv(s) && Enabled(s, e) && OfReader(e) && SameClaims(s, buf)
    ensures Enabled(s.(buf := buf), e) && Next(s.(buf := buf), e) == Next(s, e).(buf := buf)
  {
    match e
    case StepReader => StepLoads(s, buf);
    case Load(i) => VectorLoads(s, i, buf);
    case AdvanceReader(n) => VectorsLoad(s, n, buf);
    case _ =>
  }

  lemma StepLoads(s: State, buf: seq<byte>)
    requires Inv(s) && ReaderCanStep(s) && SameClaims(s, buf)
    ensures ReaderCanStep(s.(buf := buf)) && ReaderStep(s.(buf := buf)) == ReaderStep(s).(buf := buf)
  {
    var r := s.reader;
    if ReaderCopying(r) {
      assert WillLoad(s, r.base + |r.dest| - StageStart(r.second, r.n1));
    }
  }

  lemma VectorLoads(s: State, i: nat, buf: seq<byte>)
    requires Inv(s) && Enabled(s, Load(i)) && SameClaims(s, buf)
    ensures buf[Place(s.reader.data, i)] == s.buf[Place(s.reader.data, i)]
  {
    assert WillLoad(s, Place(s.reader.data, i));
  }

  lemma VectorsLoad(s: State, n: nat, buf: seq<byte>)
    requires Inv(s) && Enabled(s, AdvanceReader(n)) && SameClaims(s, buf)
    ensures InPlaces(buf, s.reader.data, n) == InPlaces(s.buf, s.reader.data, n)
  {
    forall i | 0 <= i < n ensures buf[Place(s.reader.data, i)] == s.buf[Place(s.reader.data, i)] {
      VectorLoads(s, i, buf);
    }
  }
}
