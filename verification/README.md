# Verified models of the snippets' core

A Dafny model of the parts of this repository that carry real invariants, with proofs:
the two ring buffers, the hash functions in C and in x86-64 assembly, the WAV cue-point
rewriter and the dynamic vector. `dafny verify dfyconfig.toml` checks everything.

## What is modelled

**The JACK ring buffer** (`rb/archive/ringbuffer.c`). `JackSpace` is its masked 64-bit pointer
arithmetic. `JackConcurrent` runs one writer thread and one reader thread as a transition
system in which every pointer snapshot, every byte copied and every pointer store is a step,
and in which either thread may instead take a vector of slots, use them in any order and then
advance its pointer. It proves for every schedule that the reader receives a prefix of what
the writer was accepted, that the threads never touch the same slot, and that calls are wait
free; `JackCalls` follows each call from its start to its return. `JackRing` and `JackVectors` are the same buffer as a class whose calls run to completion.

**The ring buffer of `rb.h`**. `RingBuffer` is the class with its two indices and the
`last_was_write` flag; every call is proved against `ByteQueue.View`, a bounded byte queue lying
at the front of a cyclic window over the memory. `RbRuns` is about whole runs of its calls.
`Regions`, `Search`, `Deinterleave`, `Midi`, `FloatQueue` and `FloatRuns` are what the headers
build on top, and `PeekDefects` drives the class into the errors named below. `TwoRings` runs
both ring buffers in lockstep on any script of their common calls; `QueueMachine` is the queue
they both implement.

**The hashes**. A w-bit word is a natural number below 2^w (`Words`), bytes become words in
`Loads`. `Sha1`, `Sha2` and `Md5` define the functions of FIPS 180-4 (sections 6.1.2, 6.2.2 and
6.4.2) and RFC 1321 (section 3.4) and model the C code as methods over arrays: the unrolled
rounds that rename variables instead of shifting them (`Renaming`), the rewritten choice and
majority expressions, and the full and the circular message schedule. The list of unrolled
macro lines appears as a loop over the line number; the arguments of line i are computed by
`Renaming.Role`. `Hashing` is padding and the streaming functions. `X86` is a register machine
for the instructions the assembly files use; `Sha256X86` and `Sha1X86` are those files as
programs for it, with their macros as functions that build code.

The standards' own functions, tables and amounts have a meaning of their own here, so that code
and standard cannot be wrong together: `Rotations` says what the shifts and rotations do to the
digits of a word, `HashConstants` which digits the sigma functions combine and of which roots the
constants of SHA-1 and SHA-2 are the digits, `Md5Sines` that the table of MD5 holds sines.

**The WAV rewriter** (`wavecuepoint/wavecuepoint.c`). `WavScan` is the chunk loop, `Markers` the
parser of the marker file, `WavRewrite` the writer. Files are byte sequences.

**The vector** (`vector/vector.c`). `Vector` is the class, the sequence operations it refines
and the amortised cost of its reallocations.

## What the proofs found

- `rb_peek_at` (`rb/rb.h:1178`) subtracts the offset from the length of the second part, which
  does not contain it. `ByteQueue.PeekExact` says exactly when the call is right: if and only if
  the offset is 0 or the bytes do not straddle the physical end. `PeekDefects.StalePeek` and
  `PeekDefects.OverrunningPeek` reach both failures from a new buffer of four bytes: a byte that
  is announced but not copied, and a length below zero, with which the copy leaves the buffer.
  The comment above the function promises the bytes at the offset without such a condition.
- `rb_find_byte_sequence` uses `rb_peek_at` and inherits the error. `Search.SearchExact` says
  exactly for which buffer states it is right for all contents and patterns;
  `PeekDefects.MissingSearch` and `PeekDefects.OverrunningSearch` are two failing searches.
- `rb_deinterleave_items` inherits it too, and its loop does not count items: for a channel
  that is not in the block it goes on behind the last one. `Deinterleave.DeinterleaveExact` says
  exactly when it is right for every destination; `PeekDefects.OverrunningDeinterleave` is a call
  that leaves the buffer.
- The over-calls of `rb.h` add bytes to the read total that were never written. `RbRuns.PerformOne`
  says exactly which calls upset the balance of the two totals, and
  `PeekDefects.UnbalancingRead` is one.
- The marker parser refuses 4294967295, the value that its own message calls the largest
  possible one (`wavecuepoint/wavecuepoint.c:446-455`); `Markers.KeptAll` is exact about that, and
  `Markers.LargestIsRefused` is a file with that line.
- The marker parser does not check that its array of 1000 positions has room.
  `Markers.RoomSuffices` says exactly when it stays inside: if and only if at most 1000 lines
  contribute a position. `Markers.ZerosOverrun` is a text that leaves it.
- The size field of the output is right if and only if the sizes noted of the input and those of
  the new cue points add up to less than 2^32 (`WavRewrite.SizeFieldIsLength`, for every file that
  is rewritten). Where they add up to 2^32 + 4, a second run refuses the output, and only there
  (`WavRewrite.SecondRunWins`). `WavRewrite.LongFileFails` is an input for which both happens.
- The factor two in the cost bound of the vector cannot be lowered (`Vector.BoundIsReached`).

## Model

| member | source | states |
|---|---|---|
| JackSpace.Create | rb/archive/ringbuffer.c:35-59 | the size found by the loop is a power of two, at least the requested size, and its half would be too small (or it is 2) |
| JackSpace.MaskedDifference | rb/archive/ringbuffer.c:103-137 | a wrapping 64-bit difference plus the size, masked, is the cyclic distance between two pointers |
| JackSpace.SpacesMeasureDistance | rb/archive/ringbuffer.c:103-137 | readable space is the distance from read to write pointer, and both spaces together leave exactly one slot |
| JackSpace.SplitCovers | rb/archive/ringbuffer.c:150-163 | the two copy lengths add up to the request, and the first part ends at the physical end whenever there is a second |
| JackSpace.AdvanceTracksTotal | rb/archive/ringbuffer.c:259-275 | a masked advance by any count, even one whose sum wraps, keeps a pointer equal to a running total modulo the size |
| JackConcurrent.NextInv | rb/archive/ringbuffer.c:142-361 | every step of either thread, calls and uses of vectors alike, keeps the invariant, and a call in progress can always take its next step |
| JackConcurrent.WriterFills | rb/archive/ringbuffer.c:222-255 | the slot a writer fills holds the next accepted byte and disturbs nothing the reader may still read |
| JackConcurrent.RunsInv | rb/archive/ringbuffer.c:142-361 | the invariant holds in every state reachable by any schedule |
| JackConcurrent.RunsMod | rb/archive/ringbuffer.c:142-361 | in every reachable state the read pointer is the consumed total modulo the size |
| JackConcurrent.EveryInterleavingIsSafe | rb/archive/ringbuffer.c:16-21 | for every schedule of one writer and one reader: received bytes are a prefix of accepted bytes, totals stay within size - 1 of each other, pointers mirror the totals, no slot is both to be stored by the one and loaded by the other thread, and no call or vector holds more than is available now |
| JackConcurrent.LoadedIsStream | rb/archive/ringbuffer.c:282-319 | whatever the writer does meanwhile, place i of a read vector holds byte i of the unread stream |
| JackConcurrent.AdvanceReleasesStream | rb/archive/ringbuffer.c:259-319 | an advance after the use of a read vector hands over exactly the next bytes of the stream |
| JackConcurrent.AdvancePublishesStores | rb/archive/ringbuffer.c:269-361 | an advance after the use of a write vector publishes, place by place, what was last stored there, whatever the reader does meanwhile |
| JackConcurrent.WriteCallAccepts | rb/archive/ringbuffer.c:222-241 | a write call accepts the longest prefix of its data that fits the space seen at its start |
| JackConcurrent.ReadCallTakes | rb/archive/ringbuffer.c:142-163 | the snapshot at its start fixes how many bytes a read or peek call is to take: those it asks for, or all that are published |
| JackCalls.LastStepDelivers | rb/archive/ringbuffer.c:165-215 | the last step of a read or peek hands over exactly the bytes of the stream that the call owes; a peek consumes nothing |
| JackCalls.ReadCallDelivers | rb/archive/ringbuffer.c:142-216 | for every schedule, from call to return: a read or peek of cnt bytes hands over the published bytes it asked for, from the first unread one on, and only those |
| JackCalls.LoadDelivers | rb/archive/ringbuffer.c:282-319 | a load through a place of a read vector hands over the byte of the stream at that place |
| JackCalls.WriteCallPublishes | rb/archive/ringbuffer.c:222-255 | for every schedule, from call to return: a write has published the longest prefix of its data that fitted |
| JackCalls.LastStoreIsPublished | rb/archive/ringbuffer.c:269-361 | for every schedule: what was last stored to a place of a write vector is what the advance publishes there |
| JackCalls.StoresWereClaimed | rb/archive/ringbuffer.c:142-361 | every slot whose byte a step changes was among those the writer thread had yet to store to |
| JackCalls.LoadsWereClaimed | rb/archive/ringbuffer.c:142-361 | no step of the reader thread depends on a slot outside of those it had yet to load from |
| JackConcurrent.WriterIsWaitFree | rb/archive/ringbuffer.c:222-255 | a write call returns after exactly its own remaining steps, at most its bytes plus two, whatever the reader does |
| JackConcurrent.ReaderIsWaitFree | rb/archive/ringbuffer.c:142-216 | the same for read and peek calls |
| JackRing.Jack.constructor | rb/archive/ringbuffer.c:35-59 | a new buffer is empty and its size is the least power of two from 2 on that is not below the request |
| JackRing.Jack.Reset | rb/archive/ringbuffer.c:92-97 | nothing is readable afterwards and both pointers are 0 |
| JackRing.Jack.Spaces | rb/archive/ringbuffer.c:103-137 | the spaces are the queue length and what is left of size - 1 |
| JackRing.Jack.Read | rb/archive/ringbuffer.c:142-175 | delivers and removes the oldest bytes, as many as asked for and readable |
| JackRing.Jack.Peek | rb/archive/ringbuffer.c:181-216 | delivers the same bytes and changes nothing |
| JackRing.Jack.Write | rb/archive/ringbuffer.c:222-255 | appends the longest prefix that fits and returns its length |
| JackRing.Jack.ReadAdvance | rb/archive/ringbuffer.c:259-265 | for every count, the pointer and the number of readable bytes modulo the size; within the readable bytes it removes them |
| JackRing.Jack.WriteAdvance | rb/archive/ringbuffer.c:269-275 | for every count, the pointer and the number of readable bytes modulo the size; within the writable space the bytes behind the queue become readable |
| JackVectors.GetReadVector | rb/archive/ringbuffer.c:282-319 | the two entries of the read vector, one after the other, hold the queue |
| JackVectors.GetWriteVector | rb/archive/ringbuffer.c:326-361 | the two entries of the write vector describe the free space from the write pointer on |
| JackVectors.VectorsLeaveOneSlot | rb/archive/ringbuffer.c:282-361 | every slot is in exactly one of the two vectors, except for the one before the read pointer |
| JackVectors.WriteThroughVector | rb/archive/ringbuffer.c:269-361 | filling the write vector and advancing leaves the state of a write call |
| ByteQueue.PutAppends | rb/rb.h:1054-1098 | a put appends to the queue |
| ByteQueue.TakeRemoves | rb/rb.h:931-989 | a take removes from the front, and beyond the readable bytes it leaves the queue empty |
| ByteQueue.PeekExact | rb/rb.h:1144-1198 | a peek leaves the announced queue bytes in every destination if and only if the offset is 0 or the bytes do not straddle the physical end |
| ByteQueue.PeekWrong | rb/rb.h:1174-1192 | in the other case some destination ends up with a wrong byte |
| ByteQueue.PeekFailures | rb/rb.h:1178 | two concrete states: in one a peek leaves a stale byte, in one it computes a negative length |
| RingBuffer.Rb.constructor | rb/rb.h:378-461 | a new buffer is empty, with both indices and the counters at 0 |
| RingBuffer.Rb.CanRead | rb/rb.h:871-883 | the one count that leads from the read to the write index and, where they meet, agrees with the flag |
| RingBuffer.Rb.CanWrite | rb/rb.h:904-916 | readable and writable bytes add up to the size |
| RingBuffer.Rb.ResetStats | rb/rb.h:836-843 | all counters are 0 and nothing else changes |
| RingBuffer.Rb.Reset | rb/rb.h:853-859 | the queue is empty, the indices are 0, the memory keeps its bytes |
| RingBuffer.Rb.GenericRead | rb/rb.h:931-989 | read and over-read: the returned count, the cyclic window copied to the destination, the new queue, flag and counters |
| RingBuffer.Rb.Write | rb/rb.h:1054-1098 | the longest prefix that fits is appended; returned count, flag and counters |
| RingBuffer.Rb.WriteIndexFollows | rb/rb.h:871-883 | the write index is the slot behind the last readable byte |
| RingBuffer.Rb.PeekAt | rb/rb.h:1144-1198 | what is copied with the length as the source computes it, in every state: none where the copy would leave the buffer; nothing but the counters changes |
| RingBuffer.Rb.PeekByteAt | rb/rb.h:1293-1316 | the queue byte at the offset in every state, wrapped or not |
| RingBuffer.Rb.GenericAdvanceReadIndex | rb/rb.h:1399-1438 | skip and over-skip remove exactly the bytes that a read or over-read would |
| RingBuffer.Rb.Drop | rb/rb.h:1210-1213 | the queue is empty and its length was returned; flag and counters |
| RingBuffer.Rb.AdvanceWriteIndex | rb/rb.h:1495-1517 | bytes behind the queue become readable, as many as fit |
| Regions.ReadRegionsHoldQueue | rb/rb.h:1546-1568 | the read regions, one after the other, are the queue |
| Regions.RegionsPartition | rb/rb.h:1546-1630 | every byte of the buffer lies in exactly one of the four regions |
| Regions.WriteDirectly | rb/rb.h:1495-1630 | filling the write regions and advancing leaves the state of a write of the same bytes, counters included |
| Regions.ReadDirectly | rb/rb.h:1399-1568 | copying from the read regions and advancing does what a read does, counters included |
| Regions.DrainDirectly | rb/rb.h:1632-1648 | taking the next read region until empty delivers the queue in at most two rounds |
| Search.FindByte | rb/rb.h:1228-1244 | the leftmost offset of the byte in every state, or the certainty that it is not there |
| Search.FindByteSequence | rb/rb.h:1694-1723 | the search loop as written, with its stale compare buffer, its early exit and the copies that leave the buffer, in every state |
| Search.ScanCorrect | rb/rb.h:1694-1723 | without bad windows the search finds the leftmost occurrence, or there is none |
| Search.ScanWrong | rb/rb.h:1144-1198 | every bad window has contents, a pattern and a compare buffer that defeat the search |
| Search.SearchExact | rb/rb.h:1694-1723 | the search is right for all contents and patterns if and only if no comparable window straddles the physical end at a positive offset |
| Search.ContiguousIsGood | rb/rb.h:1694-1723 | contiguous readable space has no bad window |
| PeekDefects.StalePeek | rb/rb.h:1144-1198 | on a new buffer, for every stale byte: two bytes are announced and that byte stays in place of the second |
| PeekDefects.OverrunningPeek | rb/rb.h:1174-1192 | on a new buffer: a peek that would copy out of bounds |
| PeekDefects.MissingSearch | rb/rb.h:1694-1723 | on a new buffer: a search that misses a pattern in the queue |
| PeekDefects.OverrunningSearch | rb/rb.h:1694-1723 | on a new buffer: a search that would copy out of bounds although the pattern is in the queue |
| PeekDefects.OverrunningDeinterleave | rb/rb.h:1354-1383 | on a new buffer: deinterleaving two readable items copies out of bounds |
| PeekDefects.UnbalancingRead | rb/rb.h:931-989 | on a new buffer: after an over-read of one byte the totals differ by more than the readable bytes |
| RbRuns.CallBalances | rb/rb.h:836-1517 | the written and the read total keep differing by the readable bytes, modulo 2^64, if and only if the call is no over-call beyond them and no loss of their totals |
| RbRuns.PerformOne | rb/rb.h:836-1517 | the same for a call on the buffer, with its new state and what the caller sees |
| RbRuns.Conservation | rb/rb.h:836-1517 | over every run of all calls, over-calls and bare write advances included: old contents and what entered are what left and what is there, in order |
| RbRuns.PerformAll | rb/rb.h:836-1517 | every run on the buffer, peeks at any offset included, gives the state and the observations of the abstract run, and keeps the totals in balance if none of its calls upsets them |
| QueueMachine.Conservation | rb/archive/ringbuffer.c:92-361 | over every script of the common calls, old contents and what entered are what left and what is there, in order |
| TwoRings.StepRb | rb/rb.h:853-1630 | each scripted call is the queue step, and byte totals written and read keep differing by the readable bytes |
| TwoRings.StepJack | rb/archive/ringbuffer.c:92-361 | each scripted call is the queue step of one byte less capacity |
| TwoRings.Lockstep | rb/rb.h:2068-2086 | an rb.h buffer of size S - 1 and a JACK buffer of size S give the same counts and bytes for every script, direct writes followed by an advance included, whose advances stay in range |
| TwoRings.LockstepInNumbers | rb/rb.h:2068-2086 | with bare write advances in range as well, the two buffers give the same counts, lengths and spaces for every script |
| Deinterleave.RoundCount | rb/rb.h:1368-1381 | the loop runs exactly n times if the channel is in the block; beyond the block it goes on |
| Deinterleave.AlignedIsUnsplit | rb/rb.h:1354-1383 | whole items in a buffer of whole items never straddle its end |
| Deinterleave.DeinterleaveItems | rb/rb.h:1354-1383 | the call as written, for every channel, every position of the items and every item count: nothing if too little is readable, otherwise the returned size and what is in the destination, or that a copy leaves the buffer |
| Deinterleave.ChannelItem | rb/rb.h:1354-1383 | item j of channel o is item o + j * block of the queue |
| Deinterleave.UnsplitIsRight | rb/rb.h:1354-1383 | if no item straddles the physical end and the loop ends in time, the destination holds the channel |
| Deinterleave.SplitIsWrong | rb/rb.h:1354-1383 | a straddling item at a positive position comes out wrong in some destination |
| Deinterleave.DeinterleaveExact | rb/rb.h:1354-1383 | the channel arrives in every destination if and only if no item straddles the end at a positive position and the loop ends in time |
| Deinterleave.WeaveRestores | rb/rb.h:1354-1383 | weaving the channels of a block restores the first frames of the queue |
| Deinterleave.DeinterleaveAll | rb/rb.h:1354-1383 | in a buffer of whole items with the read index on an item, one call per channel delivers all channels, and weaving them restores the queue |
| Midi.DataBytes | rb/rb_midi.h:100-136 | the mask and comparisons of the source give each byte the length of its range: none below 0x80, three for 0x80 to 0xBF and 0xE0 to 0xEF, two for 0xC0 to 0xDF, one from 0xF0 on |
| Midi.FindNextMidiMessage | rb/rb_midi.h:100-154 | offset and length of the first message, if complete |
| Midi.ReadNextMidiMessage | rb/rb_midi.h:160-180 | takes that message and what precedes it, or nothing at all |
| Midi.ReadAllMessages | rb/rb_midi.h:160-180 | repeated reading is the framing of the whole queue |
| Midi.FramesOfStream | rb/rb_midi.h:100-180 | framing any stream of messages with stray data between them finds exactly those messages and leaves an incomplete tail |
| Midi.FramesIncremental | rb/rb_midi.h:100-180 | reading all complete messages before more bytes arrive and again after delivers what reading only after would |
| Midi.Converse | rb/rb_midi.h:100-180 | a stream of any length, written in any chunks that fit and read between them, arrives as the same messages in order |
| Midi.Transmit | rb/rb_midi.h:100-180 | sent through a buffer in any chunks from any index, the same messages arrive |
| FloatQueue.AlignedFloatsNeverSplit | rb/rb_float.h:77-87 | at a float offset of an aligned buffer no float straddles the end, and the announced bytes are that float |
| FloatQueue.ReadFloat | rb/rb_float.h:33-42 | all or nothing: the first float of an aligned queue, or no change; counters |
| FloatQueue.PeekFloat | rb/rb_float.h:55-63 | all or nothing: the first float, which stays; counters |
| FloatQueue.PeekFloatAt | rb/rb_float.h:77-87 | all or nothing; at a float offset of an aligned buffer, float number offset / 4; elsewhere what the peek leaves in the destination, or that it would leave the buffer; counters |
| FloatQueue.SkipFloat | rb/rb_float.h:97-105 | all or nothing: removes the first float; counters |
| FloatQueue.WriteFloat | rb/rb_float.h:117-125 | all or nothing: appends the float; counters |
| FloatRuns.RunKeepsAlignment | rb/rb_float.h:33-125 | every run of float calls and of byte calls that move whole floats keeps both indices on float boundaries, even when cut short |
| FloatRuns.RunIsFloatRun | rb/rb_float.h:33-125 | every such run shows its callers the floats, counts and spaces of a bounded queue of floats, and leaves that queue |
| FloatRuns.PerformAll | rb/rb_float.h:33-125 | the same for the calls on an rb.h buffer |
| Renaming.NextRound | hash/SHA-2/src/sha256.c:120-183 | going on to the next renamed line shifts all roles by one |
| Renaming.StoreTwo | hash/SHA-2/src/sha256.c:41-44 | storing two variables and renaming is one shift of the working variables |
| Words.CombineBit | hash/SHA-2/src/sha256.c:36-44 | a bitwise operation acts on each digit by itself |
| Words.ChoiceByXorIsCh | hash/SHA-2/src/sha256.c:41-44 | the rewritten choice is the Ch of section 4.1.2 of FIPS 180-4 |
| Words.MajorityByOrIsMaj | hash/SHA-2/src/sha256.c:41-44 | the rewritten majority is the Maj of section 4.1.2 of FIPS 180-4 |
| Words.ChoiceInRegisterIsCh | hash/SHA-2/src/sha256-x8664.S:98-103 | the choice the assembly code computes in ecx is Ch |
| Words.MajorityInRegisterIsMaj | hash/SHA-2/src/sha256-x8664.S:116-123 | the majority the assembly code computes in eax is Maj |
| Loads.LoadsAreNumbers | hash/SHA-1/src/sha1-naive.c:28-32 | the shift-and-or loads compute the big-endian and little-endian numbers of their bytes |
| Loads.SwappedLoad | hash/SHA-2/src/sha256-x8664.S:58-60 | a little-endian load followed by bswap is a big-endian load |
| Rotations.RotrBit | hash/SHA-2/src/sha256.c:28 | a rotation to the right moves digit (i + n) mod w to place i |
| Rotations.RotlBit | hash/MD5/src/md5.c:52 | a rotation to the left moves digit (i + w - n) mod w to place i |
| Rotations.ShrBit | hash/SHA-2/src/sha256.c:36-39 | a shift to the right moves digit i + n to place i |
| Rotations.ShlBit | hash/SHA-2/src/sha256.c:28-34 | a shift to the left moves digit i - n to place i, and zeros behind |
| Rotations.ParityBit | hash/SHA-1/src/sha1-naive.c:39-41 | the parity function is odd parity digit by digit |
| HashConstants.K256IsCubeRoots | hash/SHA-2/src/sha256.c:120-183 | the constants are the first 32 binary digits behind the point of the cube roots of the first 64 primes |
| HashConstants.K512IsCubeRoots | hash/SHA-2/src/sha512.c:140-219 | the first 64 digits, for the first 80 primes |
| HashConstants.Sha1KIsSquareRoots | hash/SHA-1/src/sha1-naive.c:38-41 | the four constants are the square roots of 2, 3, 5 and 10 with 30 digits behind the point |
| HashConstants.InitialIsSquareRoots | hash/SHA-2/src/sha256-test.c:113-120 | the initial words of SHA-256 and SHA-512 are digits of the square roots of the first eight primes |
| HashConstants.InitialCounts | hash/SHA-1/src/sha1-test.c:113-117 | the hexadecimal digits of the initial bytes of MD5 and SHA-1 count up and down |
| HashConstants.Sigmas256 | hash/SHA-2/src/sha256.c:36-44 | which three digits each of the four sigma functions combines into digit i |
| HashConstants.Sigmas512 | hash/SHA-2/src/sha512.c:40-48 | the same for SHA-512 |
| Md5Sines.TableOfSines | hash/MD5/src/md5.c:66-129 | entry i of the constants is the whole part of 2^32 times the absolute sine of i, for i from 1 to 64 |
| Sha1.Round | hash/SHA-1/src/sha1-naive.c:38-45 | a macro line is one step of section 6.1.2 of FIPS 180-4 in role order |
| Sha1.CompressNaive | hash/SHA-1/src/sha1-naive.c:27-222 | the 80-word form is the compression function of the standard |
| Sha1.RingMoves | hash/SHA-1/src/sha1-fast.c:30-38 | storing a schedule word in its slot keeps the last sixteen words in the ring |
| Sha1.NextWord | hash/SHA-1/src/sha1-fast.c:30-38 | each line leaves its schedule word in its slot of the ring |
| Sha1.CompressFast | hash/SHA-1/src/sha1-fast.c:27-144 | the circular 16-word form is the same function for every state and block |
| Sha2.CodeWordIsNext | hash/SHA-2/src/sha256.c:36-39 | the schedule sum in the order of the source is the next schedule word |
| Sha2.CodeIsStep | hash/SHA-2/src/sha256.c:41-44 | the two stores of a macro line and the renaming make one step of section 6.2.2 of FIPS 180-4 |
| Sha2.Round | hash/SHA-2/src/sha512.c:45-48 | a macro line is one step in role order |
| Sha2.CompressInPlace | hash/SHA-2/src/sha512.c:27-228 | both sizes: the code is the compression function of sections 6.2.2 and 6.4.2 |
| Md5.CodeMixIsMix | hash/MD5/src/md5.c:53-56 | the four rewritten functions are F, G, H and I of section 3.4 of RFC 1321 |
| Md5.TablesAreRight | hash/MD5/src/md5.c:66-129 | the word indices and rotations written out in the macro list follow the rules of the definition |
| Md5.Round | hash/MD5/src/md5.c:53-59 | a macro line is one step in role order |
| Md5.CompressInPlace | hash/MD5/src/md5.c:27-135 | the code is the compression function of the definition |
| Hashing.PaddingFillsBlocks | hash/SHA-2/src/sha256-test.c:112-144 | the padded message fills whole blocks with the fewest zeros |
| Hashing.PaddingInjective | hash/SHA-2/src/sha256-test.c:112-144 | different messages have different paddings |
| Hashing.PaddedBits | hash/SHA-2/src/sha256-test.c:128-134 | bit by bit: the message, a one, and zeros up to the length field |
| Hashing.BitsBeforeLength | hash/SHA-2/src/sha512-test.c:122-144 | the bits before the length field are 448 modulo 512, or 896 modulo 1024, and the field has 64 bits, or 128 |
| Hashing.LengthFieldEncodes | hash/SHA-2/src/sha512-test.c:112-144 | the length field is the bit length modulo what the field holds, in either byte order |
| Hashing.StoreLength | hash/MD5/src/md5-test.c:137-140 | storing the low five bits shifted up and then byte after byte writes the length field |
| Hashing.AbsorbBlocks | hash/SHA-2/src/sha256-test.c:124-126 | after the whole blocks, folding the padded rest completes the digest |
| Hashing.AbsorbTail | hash/SHA-1/src/sha1-test.c:125-141 | one or two tail blocks complete the fold over the padded message |
| Hashing.HashMessage | hash/MD5/src/md5-test.c:114-142 | for all four hashes and every message, the streaming function computes the digest of the standard |
| X86.Cpu.Execute | hash/SHA-2/src/sha256-x8664.S:125-230 | stepping through a program gives its meaning |
| X86.RingMoves | hash/SHA-2/src/sha256-x8664.S:56-86 | storing the next word in its stack slot keeps the last sixteen words and touches nothing else |
| X86.StackMoves | hash/SHA-2/src/sha256-x8664.S:133-229 | lowering and raising the stack pointer restores it |
| Sha256X86.TailRuns | hash/SHA-2/src/sha256-x8664.S:88-123 | running ROUNDTAIL of line i is one step of the standard in role order, and keeps pointers, xmm registers and memory |
| Sha256X86.ScheduleValue | hash/SHA-2/src/sha256-x8664.S:64-86 | the sum ROUNDb makes of four ring words is the next schedule word |
| Sha256X86.RoundRuns | hash/SHA-2/src/sha256-x8664.S:56-123 | running a whole line is one round of the standard, and the ring of schedule words moves on |
| Sha256X86.ConstantsAgree | hash/SHA-2/src/sha256-x8664.S:146-209 | the signed constants have the low 32 bits of the standard's constants |
| Sha256X86.RoundsRun | hash/SHA-2/src/sha256-x8664.S:145-209 | from any line on, the rest of the lines completes the 64 rounds |
| Sha256X86.CompressRuns | hash/SHA-2/src/sha256-x8664.S:56-230 | for every state and block the routine stores the compressed state, restores rbx, rsp to rdi and r10 to r15, and changes no other memory than its scratch space |
| Sha256X86.CompressOn | hash/SHA-2/src/sha256-x8664.S:25-230 | the same for the routine executed on a processor |
| Sha1X86.NewEIsStep | hash/SHA-1/src/sha1-fast-x8664.S:98-103 | the sum in the order of the code, with its signed constants, is a step of the standard |
| Sha1X86.RoundRuns | hash/SHA-1/src/sha1-fast-x8664.S:46-103 | running a line is one round of the standard, and the ring moves on |
| Sha1X86.CompressRuns | hash/SHA-1/src/sha1-fast-x8664.S:46-212 | for every state and block the routine stores the compressed state, restores rbx, rbp, rsp and r9 to r15, and changes no other memory than its scratch space |
| Sha1X86.CompressOn | hash/SHA-1/src/sha1-fast-x8664.S:25-212 | the same for the routine executed on a processor |
| Vector.CreditPays | vector/vector.c:46-158 | any call moves at most two items beyond what it takes from the saved credit |
| Vector.AmortisedBound | vector/vector.c:46-158 | over every script from every initial capacity, at most two items are moved per call that may reallocate |
| Vector.BoundIsReached | vector/vector.c:66-74 | 2^k + 1 adds to an array of one move all but three of the allowed items |
| Vector.Vec.constructor | vector/vector.c:7-31 | an empty vector of the wanted capacity, or of four |
| Vector.Vec.Resize | vector/vector.c:46-63 | the items stay, the capacity is the wanted one but at least one |
| Vector.Vec.Add | vector/vector.c:66-74 | appends, and returns the new size |
| Vector.Vec.Set | vector/vector.c:77-85 | replaces the item at an index in range, otherwise -1 and no change |
| Vector.Vec.Get | vector/vector.c:88-95 | the item at an index in range, otherwise null |
| Vector.Vec.Delete | vector/vector.c:98-122 | removes the item at an index in range and closes the gap, otherwise -1 and no change |
| Vector.Vec.Insert | vector/vector.c:125-146 | inserts before an existing item, otherwise -1 and no change |
| Vector.Vec.Clear | vector/vector.c:148-158 | no items, and the initial capacity again |
| Vector.RunScript | vector/vector.c:7-158 | every script gives the items of the sequence operations, within the cost bound |
| Vector.ItemsAfter | vector/vector.c:66-158 | which item is where after a call: one has changed, gone or come, the others keep their order |
| Vector.Undone | vector/vector.c:77-146 | deleting what was inserted and setting back what was set restore the items |
| Vector.PutBack | vector/vector.c:98-146 | inserting what was deleted restores the items if and only if it was not the last one |
| Markers.ReadLine | wavecuepoint/wavecuepoint.c:385-441 | consumes at least a byte or ends the file, and leaves the positions of the rest of the text |
| Markers.ReadMarkers | wavecuepoint/wavecuepoint.c:376-457 | for every text, the array holds the positions in order as far as it has places, and is overrun if and only if there are more |
| Markers.FileIsItsLines | wavecuepoint/wavecuepoint.c:376-457 | a file of lines, whatever their ends and whether the last is ended, is parsed line by line, from the first ten digits of each |
| Markers.RoomSuffices | wavecuepoint/wavecuepoint.c:379-457 | a file of lines stays inside the array if and only if at most 1000 of its lines contribute a position |
| Markers.EveryTextIsLines | wavecuepoint/wavecuepoint.c:388-441 | every text is a file of lines, so that holds for all texts |
| Markers.CharactersMeant | wavecuepoint/wavecuepoint.c:400-423 | the bytes the parser looks for are the decimal digits, carriage return and line feed |
| Markers.ZerosOverrun | wavecuepoint/wavecuepoint.c:379-457 | 1001 lines with a zero overrun the array, 1000 do not |
| Markers.DecimalReads | wavecuepoint/wavecuepoint.c:443-446 | decimal printing is read back |
| Markers.LaterDigitsIgnored | wavecuepoint/wavecuepoint.c:425-439 | of a line with more than ten digits, the first ten count |
| Markers.RoundTrip | wavecuepoint/wavecuepoint.c:376-457 | values printed with any noise come back in order, except those not below the limit |
| Markers.RoundTripUnended | wavecuepoint/wavecuepoint.c:376-457 | the same when the last line is not ended |
| Markers.KeptAll | wavecuepoint/wavecuepoint.c:446-455 | the round trip is exact if and only if every value is below 4294967295 |
| Markers.LargestIsRefused | wavecuepoint/wavecuepoint.c:446-455 | 4294967295 on a line of its own gives no position |
| Riff.Le32Reads | wavecuepoint/wavecuepoint.c:723-775 | storing and loading a 32-bit integer gives it back, lowest byte first |
| Riff.IdsSpelled | wavecuepoint/wavecuepoint.c:168-209 | the identifiers are the four characters they stand for |
| WavScan.ScanChunks | wavecuepoint/wavecuepoint.c:191-357 | the loop notes what its rounds note, on every byte sequence |
| WavScan.ChunkRound | wavecuepoint/wavecuepoint.c:209-356 | at a well-formed chunk a round goes to the end of it, padding included |
| WavScan.ScanOfChunks | wavecuepoint/wavecuepoint.c:191-357 | scanning a file of well-formed chunks in any order notes all of them, unless more than the array holds are of other kinds: then it is refused |
| WavScan.PresenceNoted | wavecuepoint/wavecuepoint.c:209-375 | a format and sample data are noted if and only if there are such chunks |
| WavScan.OthersNoted | wavecuepoint/wavecuepoint.c:327-356 | the noted locations copy the other chunks in order |
| WavScan.FormatNoted | wavecuepoint/wavecuepoint.c:210-252 | the noted format structure and extra bytes copy the format chunk |
| WavRewrite.CopyChunk | wavecuepoint/wavecuepoint.c:656-710 | copying in pieces of 1024 bytes copies the range |
| WavRewrite.HeaderSize | wavecuepoint/wavecuepoint.c:522-549 | the size added up in 32 bits is the exact size modulo 2^32 |
| WavRewrite.AddMarkers | wavecuepoint/wavecuepoint.c:115-653 | for every file and marker text, the outcome, overruns of the array of positions included, and the output bytes |
| WavRewrite.SoundFileIsMarked | wavecuepoint/wavecuepoint.c:115-653 | for every well-formed file, the output is the file of its format chunk, the new cue points, its other chunks in order and its sample data, unless there are no positions or more than 1000 |
| WavRewrite.SizeFieldIsLength | wavecuepoint/wavecuepoint.c:522-551 | for every file that is rewritten, the size field of the output is its length less 8 if and only if the sizes noted of the input and the cue points add up to less than 2^32 |
| WavRewrite.MarkedSizeField | wavecuepoint/wavecuepoint.c:522-551 | the same for a well-formed file, in terms of the sizes of its chunks |
| WavRewrite.LongFileFails | wavecuepoint/wavecuepoint.c:522-551 | an input that fits 32 bits whose output says 4 instead of 2^32 + 4 and is refused by a second run |
| WavRewrite.MarkedIsSound | wavecuepoint/wavecuepoint.c:551-638 | the chunks of the output are well formed: the same format, others and data, and the new cue chunk only |
| WavRewrite.OutputScansTheSame | wavecuepoint/wavecuepoint.c:191-638 | scanning the bytes of the output notes ranges that hold the same format, other chunks and sample data as the ranges noted of the input |
| WavRewrite.ChunkFilesExact | wavecuepoint/wavecuepoint.c:115-653 | for every file of well-formed chunks: it is rewritten if and only if it has a format, sample data, at most 256 other chunks and there are 1 to 1000 positions; otherwise the run fails, or overruns the array of positions |
| WavRewrite.OtherHeaderFails | wavecuepoint/wavecuepoint.c:159-189 | a file that does not start with RIFF, a size other than 4 and WAVE is refused |
| WavRewrite.OtherEncodingFails | wavecuepoint/wavecuepoint.c:209-252 | a file with a format chunk of another encoding than PCM is refused |
| WavRewrite.OutputCueReads | wavecuepoint/wavecuepoint.c:483-577 | at its offset in the output file stands a cue chunk with its size and count, and every cue point has all six fields: identifiers from 1 on, play order 0, "data", 0, 0 and the position |
| WavRewrite.CuePointsShown | wavecuepoint/wavecuepoint.c:483-577 | the same for every file that is rewritten |
| WavRewrite.CueRoundTrip | wavecuepoint/wavecuepoint.c:483-509 | reading the frame offsets of the cue chunk's contents gives the markers' positions |
| WavRewrite.SecondRunWins | wavecuepoint/wavecuepoint.c:115-653 | a second run on the output gives what it would have given on the original, and with the same markers changes nothing, if and only if the chunks of the output do not fill a multiple of 2^32 (or the second run has no markers) |

## Left out

- Deinterleave.DeinterleaveItems: requires an item size and a block of at least 1, because the loop of the source does not advance without them, and a request that leaves room for one more frame in 64 bits (with no items, for a buffer of the largest size besides).
- Search.FindByteSequence: a count of 0 is not modelled; the source would read a pattern byte that the caller need not have.
- JackSpace.Create: sizes up to 2^30 only, because the source shifts an int.
- TwoRings.Lockstep: compares bytes for the common calls, with a write advance only after the writable region has been filled, because a bare one exposes memory in which the two buffers differ; `TwoRings.LockstepInNumbers` covers the bare ones without the bytes. Over-reads and over-skips exist on one side only, in `RbRuns`.
- FloatRuns.PerformAll: peeks of several bytes at a positive offset are not among the byte calls, because they go wrong where they straddle the end.
- JackConcurrent.NextInv: a thread that holds a vector uses no place and advances by no count beyond it.
- Md5Sines.TableOfSines: is about all real numbers between the partial sums of the series for sin(1) and cos(1); that there are such numbers, and that they are unique, is not proved.
- WavRewrite.SecondRunWins: is about files of well-formed chunks; files that end inside a chunk or count cue points wrongly are covered by `WavRewrite.AddMarkers` and `WavRewrite.SizeFieldIsLength`, where copying bytes that do not exist is the outcome Indeterminate.
- Threads on `rb.h`: both sides store `last_was_write`, so its calls are taken as atomic; concurrency is proved for the JACK file, under sequential consistency and with no weaker memory order.
- Aliasing between a destination and the buffer of a ring buffer, and between hash state and message.
- The machine model keeps memory as 32-bit words at byte addresses: words that overlap without being equal are independent in it, address arithmetic does not wrap at 2^64, and flags, `retq` and the instruction encoding are not modelled. The routines access aligned words of disjoint ranges only.
- Machine words of the hash code are numbers below 2^w; the model does not use Dafny's bit vectors.
- SHA-224 and SHA-384, and the other assembly files: the same patterns with other constants, truncation or vector instructions.
- The vector's allocation failures and the overflow of its int sizes; items above the size keep old pointers after a clear, which no call can see.
- Shared memory, memory locking, mutexes, names and audio metadata of `rb.h`, and its helpers on double seconds: operating-system calls and floating point.
- Error messages, file handles, read and write errors, allocation failures and big-endian hosts of the WAV rewriter; the merge option, which the source does not implement.
- The Java port of `rb.h`, which repeats its code, and the command-line tools, examples and benchmarks.
