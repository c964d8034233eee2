# Verified models of AuDHSOS components

Dafny 4.11 models of seven components of the AuDHSOS repository, and proofs about them:
the DEFLATE codec, the mark/sweep heap of the JavaScript engine, the two compilers that engine
has for one source language, the intrusive index list, damage tracking and presentation of
the graphics crate, PEM and Base64, and the validation of ELF segments.

`dafny verify dfyconfig.toml` checks the whole project.

The model keeps the form of the code. A type whose methods update its fields is a class, a
buffer the caller lends is an `array`, a loop that updates variables is a loop with
invariants, and every such method is proved against a function or a predicate over values.
What the code promises is then proved of those. Slices are arrays or sequences of any
length; the Rust code never holds a slice longer than `isize::MAX`, so its saturating and
checked `usize` arithmetic on lengths does not run over and is written as plain arithmetic.
Where a narrower width matters (`u16` registers and code counts, `u32` positions, links and
coordinates, `u64` addresses) it is written out.

## What is proved

**DEFLATE** (`Deflate-*.dfy`, RFC 1951). A reference format is given as a datatype of blocks with
an encoding into bits and a meaning in bytes. `InflateSound.InflatesExactly`: for every byte
sequence and every room, the decoder answers `Ok(whole)` if and only if the bytes encode
some list of blocks that means `whole` and there is room for it. `StoredStreams.Compress`:
for every input and every buffer the answer is the lesser of the coded and the stored length, or
lack of room exactly when that does not fit, and inflating the bytes written, in any room, gives
the input back or says that it does not fit. The coded length is a function of the tokens of a
greedy parse (`DeflateLength`), and `Deflater.Deflate` shows that the tokens are those of a plain
scan of the input that forgets positions past 32 bits, so that the hash chains, which reuse their
slots modulo the window, agree with that scan.
`Inflater.Inflate` says what is in the buffer when any input is refused as well,
`InflateWrites.MoreRoom` that more room only adds to it, and `InflateWrites.LacksRoomExactly` that
room is what is lacking if and only if more would be written than there is room for.
`Huffman.Build` accepts exactly the code lengths with Kraft sum one, none, or a
lone distance code, and reading what was written with the canonical codes gives the symbol back.
`DeflateConstants` gives the tables and the fixed codes as the sections of RFC 1951 describe them.

**Heap** (`Heap-*.dfy`). `Heaps.Heap.Collect`: a collection that succeeds keeps exactly the
least set that holds the roots and is closed under strong edges, weak associations
whose map and key are both kept, native keys, and abort dependents; every other node is
gone, every kept weak map loses exactly the associations whose key died, and no mark is
left. What a collection costs is a function of the heap and of that set (`HeapCost`): without a
broken reference there is exactly one answer for every amount of fuel, a refusal below that cost
and the rest of the fuel from it on. A broken reference is a handle reached that names nothing,
which no success ever meets. `HandleLifetimes` states over
every run of allocations, writes and collections, failed ones included, that a handle is issued
once, resolves to its node while that node lives and never again.

**Two compilers** (`Jrs-*.dfy`). The source fragment has a big-step meaning; both backends
have a machine. `StackCompiler.Compiler` and `RegisterLowering.Lowerer` are the compilers in
their own form, growing code and patching jumps; they are proved to emit the code of
`StackBackend` and `StatementLowering`, to refuse exactly where those do, and to leave no trace
of an attempt that is taken back. `BackendAgreement.BackendsAgree`: for every program both
take, where one machine halts the other halts, with the same completion value and the same
bindings, and where one runs forever so does the other. `TrackedTypes` shows that the types
the register lowering tracks over-approximate every run, and `RegisterTypes` and
`TypeInference` that they form a lattice on which the inference stops within 4n+1 passes.
`ScriptAcceptance.AcceptedScripts` is which scripts the register compiler takes: over initialized
bindings that are not tracked as objects or as undefined, a script that does not write undefined,
whose conditions and arms assign nothing and whose compound assignments stand alone, is taken if and only if it says something, assigns
only what may be assigned, jumps only out of loops and has registers. Its loops are taken because
the inferred types are the least that take in every assignment (`InferredTypes.FixedPointIsLeast`)
and what the lowering tracks stays below them (`LoweredTypes.LoweredFollows`).

**Index list** (`List-*.dfy`). Every operation is the operation on a sequence of distinct
nodes; a refused one changes nothing; all other lists in the same links keep their sequences.

**Graphics** (`Gfx-*.dfy`). Over every sequence of pushes the damage set holds no two
overlapping rectangles, never more than its capacity, all pixels pushed and none outside
their bounds; while no push finds it full, its rectangles are the boxes around pushed ones that
overlaps joined (`DamageClusters.DamageLinked`). Over every run of fills and blits, presenting the recorded damage makes
the sink agree with the surface on the whole shared area and changes nothing else.

**PEM and Base64** (`Encoding-*.dfy`, RFC 4648 and RFC 7468). Decoding is canonical: a
text decodes to bytes if and only if it is the encoding of them. Reading by quanta, a line
at a time, accepts what decoding the joined text accepts. A text is read as a block if
and only if its lines hold that block; in the strict form that fixes every line of the block.
What is written is read back, at its width or a greater one, behind any explanatory text.

**ELF** (`Elf-*.dfy`). Comparing neighbours that hold memory after an insertion sort finds an
overlap if and only if some two segments share a byte; an accepted image has its loadable
segments, sorted, apart and inside the file and the bounds. `ElfFormat` lays file headers and
program headers out field by field and shows that they are read back, and `ElfFaults` that a
segment is refused for the first thing that is wrong with it.

## Where the code does less than it seems to

- A name whose binding is not initialized is refused by the register lowering, but a loop
  that is lowered a second time from widened types guesses a type for it
  (`crates/jrs/src/bytecode.rs:4447-4464`, `crates/jrs/src/bytecode.rs:6075-6231`).
  `UninitializedBindings.BackendsPart` gives, for every such binding, a script both compilers take
  on which the stack machine stops with its error and the register machine returns the
  undefined its frame starts with. `UninitializedBindings.AgreeExactly` is the exact condition:
  from any states that hold the bindings, the backends agree on every script both take if and
  only if every binding is initialized. The statements of a whole script start with their
  declarations made (`crates/jrs/src/bytecode.rs:7129-7176`), so in the code such a list of statements
  stands in a block whose declaration follows the loop and whose scope gives the name no type
  (`crates/jrs/src/bytecode.rs:4247-4274`), as in
  `{ while (true) { x; break; x = 0; } let x = 1; }`.
- The inference does not look into conditions, takes the value of a compound assignment for what
  is added, and tells a number where undefined is added to one
  (`crates/jrs/src/bytecode.rs:5738-5817`, `crates/jrs/src/bytecode.rs:6075-6202`), so a loop can be
  refused although each of its statements is sound. `AcceptanceLimits` has such a loop for each,
  and a conditional whose arms leave different types.
- The type tracked for the value of a loop leaves out the value a `continue` or a `break` leaves
  (`crates/jrs/src/bytecode.rs:4556-4621`). `TrackedValues.JumpIsNotTracked` is such a loop; without
  jumps the type is right (`TrackedValues.ValueIsTracked`).
- `Surface::range` adds with saturation, so on a surface of width `u32::MAX` it also passes runs
  that leave their row (`crates/gfx/src/surface.rs:170-183`). `Surfaces.RunCanLeave` are those
  runs and `Surfaces.RunIsInside` the exact condition.
- `crates/encoding/src/error.rs:13-15` says that a function of the crate writes its whole answer
  or none of it. Lack of room is always found before anything is written, but other refusals
  leave the quanta before them: `Base64Spec.RefusalCanWrite` is such a text and
  `PemRefusals.ReadRefusalCanWrite` such a block. `Base64.Decode` and `PemReader.Read` say exactly
  what is then in the buffer. By `Base64.RefusalIsClean` a refused text leaves every buffer
  as it was if and only if its length, its pad or the room is refused, or its first quantum
  is; `PemRefusals.ReadRefusalIsClean` is the same for a block.
- The compressor's index keeps positions in 32 bits (`crates/deflate/src/lib.rs:97-121`), so its
  matches are those of a scan that forgets later positions (`MatchSpec.Seen`).
  `MatchSpec.MatchIsMissed` is an input with a match that is not taken. With no more than 128 positions
  of the same hash in the window, `MatchSpec.BestExactly` is the exact condition: nothing in the
  window beats the match taken if and only if the last of them fits 32 bits or the window has no
  match to lose. A window past 2^32-1 there are no matches any more (`MatchSpec.NothingIsSeen`).
- An index list takes `NONE`, which stands for no node, where the slice has a link for it
  (`crates/collections/src/index_list.rs:175-187`). `IndexLists.IndexList.PushFront`, `PushBack` and
  `InsertAfter` say what that leaves: a length and no list. For every other node, in slices of any
  length, they do what they promise.

## Model

| member | source | states |
|---|---|---|
| `BitStrings.ToFromBits` | crates/deflate/src/bits.rs:120-132 | the bits of a number that fits them, low bit first, read back as that number: the packing of section 3.1.1 of RFC 1951 |
| `BitStrings.FromToBits` | crates/deflate/src/bits.rs:110-132 | and bits read as a number are the bits of that number |
| `BitStrings.BytesBitsInjective` | crates/deflate/src/bits.rs:110-132 | two byte sequences with the same bits are the same |
| `BitIO.Writer.Bits` | crates/deflate/src/bits.rs:39-50 | the stream grows by exactly the value's low bits; refused exactly when the whole bytes of the longer stream do not fit |
| `BitIO.Writer.Code` | crates/deflate/src/bits.rs:53-61 | the stream grows by the code's bits, high bit first; refused exactly when they do not fit |
| `BitIO.Writer.Align` | crates/deflate/src/bits.rs:65-71 | zero bits up to the next byte, and nothing held back |
| `BitIO.Writer.Bytes` | crates/deflate/src/bits.rs:74-79 | whole bytes follow what stands in the buffer; all or a refusal |
| `BitIO.Writer.Finish` | crates/deflate/src/bits.rs:82-85 | the buffer's bits are the stream and zeros up to its last byte, and the length is its bytes |
| `BitIO.Reader.Bits` | crates/deflate/src/bits.rs:120-132 | the number that stands at the place reached in the stream, which moves past it; refused exactly past the end |
| `BitIO.Reader.Align` | crates/deflate/src/bits.rs:140-143 | the place reached moves to the next byte |
| `BitIO.Reader.Bytes` | crates/deflate/src/bits.rs:146-151 | the bytes at an aligned place, which moves past them |
| `Huffman.Counts` | crates/deflate/src/huffman.rs:64-73 | how many symbols have each length, and none of length zero |
| `Huffman.Unused` | crates/deflate/src/huffman.rs:80-87 | what is left of the codes of the longest length, or nothing when they are oversubscribed |
| `Huffman.NewCodes` | crates/deflate/src/huffman.rs:32-58 | every coded symbol gets its canonical code of section 3.2.2 of RFC 1951, every other zero; where the lengths ask for more codes than there are, the codes saturate at sixteen bits |
| `Huffman.Build` | crates/deflate/src/huffman.rs:125-157 | the accepted length vectors are exactly those with nothing coded, with Kraft sum one, or with a lone one-bit code where that is allowed; the tree lists the symbols in canonical order |
| `Huffman.DecodeSymbol` | crates/deflate/src/huffman.rs:161-178 | the bit-by-bit reader answers what the canonical decoding of the bits ahead answers, and consumes as many |
| `Huffman.DecodeWritten` | crates/deflate/src/huffman.rs:32-178 | where a symbol's code stands, decoding gives that symbol and consumes exactly its length |
| `Huffman.DecodeReads` | crates/deflate/src/huffman.rs:161-178 | decoding answers only symbols whose code stands there |
| `HuffmanCode.KraftIsUsed` | crates/deflate/src/huffman.rs:80-87 | the count over lengths is the Kraft sum over symbols |
| `HuffmanCode.CodeFits` | crates/deflate/src/huffman.rs:32-58 | a canonical code fits its length |
| `HuffmanCode.BeginningsArePastShorterCodes` | crates/deflate/src/huffman.rs:32-58 | the beginning of a code at a shorter length lies past all codes of that length: the code is free of prefixes |
| `DeflateTables.LengthCode` | crates/deflate/src/tables.rs:127-134 | a match length has the code, extra bits and value of section 3.2.5 that name it, and the code is that of the last entry that starts at it or below it |
| `DeflateTables.DistanceCode` | crates/deflate/src/tables.rs:139-146 | the same for distances up to the window |
| `DeflateTables.NamesFound` | crates/deflate/src/tables.rs:127-165 | a code looked up again gives the base and extra bits that name the same number |
| `DeflateTables.FindSound` | crates/deflate/src/tables.rs:152-165 | a looked-up entry is the table's entry of that code |
| `DeflateTables.FixedCodesAreComplete` | crates/deflate/src/tables.rs:106-124 | the fixed codes of section 3.2.6 use up the code space exactly |
| `DeflateConstants.OrderIs` | crates/deflate/src/decode.rs:28-30 | the order of the code length codes as section 3.2.7 describes it: 16, 17, 18, 0, and then outward from 8 |
| `DeflateConstants.LengthsAre` | crates/deflate/src/tables.rs:36-66 | every entry of the length table is what section 3.2.5 says: no extra bits up to 264, one more for each four codes from 265 on, and 285 alone for 258 |
| `DeflateConstants.DistancesAre` | crates/deflate/src/tables.rs:70-102 | every entry of the distance table: one extra bit more for each two codes from 4 on |
| `DeflateConstants.TablesReach` | crates/deflate/src/tables.rs:26-102 | the tables say exactly the lengths from 3 to 258 and the distances up to the window |
| `DeflateConstants.FixedCodesAre` | crates/deflate/src/tables.rs:106-118 | the four ranges of the fixed literal code of section 3.2.6, each with its length and its first code |
| `DeflateConstants.FixedDistancesAre` | crates/deflate/src/tables.rs:122-124 | a fixed distance code is five bits that are the code itself |
| `DeflateConstants.CodesInOrder` | crates/deflate/src/huffman.rs:32-58 | codes of one length follow one another in the order of their symbols, as section 3.2.2 asks |
| `DeflateConstants.CopyBackAt` | crates/deflate/src/decode.rs:84-123 | every byte a reference copies is the byte so far before it, overlapping or not |
| `MatchSpec.BestMatchIsBest` | crates/deflate/src/encode.rs:151-193 | the match found is the nearest of the longest among the candidates a plain scan visits |
| `MatchSpec.BestInWindow` | crates/deflate/src/encode.rs:151-180 | with at most 128 positions of the same hash in the window, the last of which fits 32 bits, no earlier position in it beats the match |
| `MatchSpec.BestExactly` | crates/deflate/src/lib.rs:97-121 | with at most 128 positions of the same hash in the window, nothing in it beats the match if and only if the last of them fits 32 bits or there is no match in the window to be lost |
| `MatchSpec.MatchIsMissed` | crates/deflate/src/lib.rs:97-121 | an input with a match of three bytes one position back that is not taken |
| `MatchSpec.NothingIsSeen` | crates/deflate/src/lib.rs:97-121 | a window past the last position that fits 32 bits no match is taken any more |
| `MatchSpec.MixBits` | crates/deflate/src/encode.rs:58-68 | the hash bit by bit: three bytes shifted by ten, five and nothing, exclusive or, and the low fifteen bits |
| `Matcher.WindowSlots` | crates/deflate/src/lib.rs:97-121 | positions less than a window apart have slots of their own |
| `Matcher.Scratch.constructor` | crates/deflate/src/lib.rs:79-84 | a new index is the index of nothing, for every input |
| `Matcher.Scratch.Clear` | crates/deflate/src/lib.rs:91-94 | a cleared index is the index of nothing, for every input |
| `Matcher.Scratch.Insert` | crates/deflate/src/lib.rs:97-108 | after an insertion the heads are the latest positions of their hash and the links the ones before, at every position; one that does not fit 32 bits is kept as none |
| `Matcher.CountCommon` | crates/deflate/src/encode.rs:182-193 | the number of equal bytes at two places, up to a limit |
| `Matcher.Longest` | crates/deflate/src/encode.rs:151-180 | whatever the index holds, a match found repeats the input; over the index of the positions before, it is the match of the plain scan |
| `DeflateSpec.CopyBackRun` | crates/deflate/src/decode.rs:84-123 | copying a match back, overlapping or not, extends the input by its next bytes |
| `DeflateLength.MatchBits` | crates/deflate/src/encode.rs:70-100 | the bits a match takes, from its length and distance alone, are those of its codes and extra bits |
| `DeflateLength.StepBits` | crates/deflate/src/encode.rs:70-100 | the bits of the greedy parse from a position on are those of its token and of the rest |
| `Deflater.PutMatch` | crates/deflate/src/encode.rs:70-100 | a match is written as one symbol of the format that means that match, and is refused exactly when the bits it takes do not fit |
| `Deflater.InsertRun` | crates/deflate/src/encode.rs:70-100 | every position of a match is indexed |
| `Deflater.Step` | crates/deflate/src/encode.rs:70-100 | one step writes one symbol that means the next bytes, moves forward, keeps the index and the greedy parse, and takes exactly the bits of its token |
| `Deflater.Deflate` | crates/deflate/src/encode.rs:70-100 | it succeeds if and only if the buffer has `DeflatedLength` bytes, a function of the tokens of a greedy parse over a plain scan that forgets positions which do not fit 32 bits, and takes exactly as many; the bytes written are one fixed-code block of those tokens that means the input |
| `DeflateSpec.FixedStream` | crates/deflate/src/encode.rs:70-100 | a header, the symbols, the end of block and zeros are a stream of one fixed block that means the input |
| `StoredStreams.StoredBytesLength` | crates/deflate/src/encode.rs:129-135 | the stored form takes exactly `stored_length` bytes |
| `StoredStreams.BlocksAreFull` | crates/deflate/src/encode.rs:106-126 | every stored block but the last carries 65535 bytes, and none after the first is empty |
| `StoredStreams.StoredMeans` | crates/deflate/src/encode.rs:106-126 | the chain of stored blocks means the input |
| `StoredStreams.StoredStream` | crates/deflate/src/encode.rs:106-126 | the stored form encodes that chain |
| `StoredStreams.Store` | crates/deflate/src/encode.rs:106-126 | the stored form is written exactly when it fits |
| `StoredStreams.Compress` | crates/deflate/src/encode.rs:44-56 | the answer is the lesser of the coded and the stored length, or lack of room exactly when that does not fit; what is written is the coded block exactly when it is shorter, and the stored form otherwise; it reads back as the input in any room |
| `StoredStreams.StreamReadsBack` | crates/deflate/src/decode.rs:36-66 | a stream of the format inflates to what it means, or says that it does not fit |
| `Inflater.Stored` | crates/deflate/src/decode.rs:69-82 | a stored block leaves the place and the answer of its specification, and is written whole or not at all |
| `Inflater.ReadStored` | crates/deflate/src/decode.rs:69-82 | the bytes a stored block carries, exactly when its length and complement agree and they are all there |
| `Inflater.ReadReference` | crates/deflate/src/decode.rs:84-123 | a length and a distance as the format gives them, or an input error |
| `Inflater.Copy` | crates/deflate/src/decode.rs:84-123 | a back reference copies only bytes already written, one by one, until it is done or the buffer is full |
| `Inflater.Coded` | crates/deflate/src/decode.rs:84-123 | a coded block leaves the place, the answer and, refused or not, the buffer of its specification |
| `Inflater.ReadCodeLengths` | crates/deflate/src/decode.rs:126-146 | the code length code in its permuted order, which `DeflateConstants.OrderIs` spells out |
| `Inflater.ReadRepeat` | crates/deflate/src/decode.rs:147-187 | what one code length symbol says: a length, a repeat of the last one, or a run of zeros |
| `Inflater.Fill` | crates/deflate/src/decode.rs:147-187 | a run of one length, refused exactly past the tables |
| `Inflater.ReadLengths` | crates/deflate/src/decode.rs:126-187 | both alphabets' lengths as one run, refused when a repeat passes their end |
| `Inflater.ReadTables` | crates/deflate/src/decode.rs:126-187 | the trees of a dynamic block, or an input error |
| `Inflater.Dynamic` | crates/deflate/src/decode.rs:36-66 | a dynamic block leaves the place, the answer and, refused or not, the buffer of its specification |
| `Inflater.Inflate` | crates/deflate/src/decode.rs:36-66 | for every input, valid or not, it ends; its answer and the front of the buffer are functions of the input and the length of the buffer, and everything past what was written is as it was |
| `InflateWrites.MoreRoom` | crates/deflate/src/decode.rs:36-187 | with more room no byte that was written changes, nor an answer other than the lack of room |
| `InflateWrites.LacksRoomExactly` | crates/deflate/src/decode.rs:36-187 | an input, valid or not, is refused for lack of room if and only if the decoder would write more bytes than there is room for |
| `InflateComplete.StreamWritten` | crates/deflate/src/decode.rs:36-187 | an encoding of blocks is read as their meaning, or as lack of room |
| `InflateSound.StreamTaken` | crates/deflate/src/decode.rs:36-187 | what is read as bytes is the encoding of blocks that mean them |
| `InflateSound.InflatesExactly` | crates/deflate/src/decode.rs:36-187 | the decoder answers `whole` if and only if the input encodes blocks that mean it and it fits |
| `InflateSound.InflateLacksRoom` | crates/deflate/src/decode.rs:36-187 | a valid stream that does not fit is refused for lack of room, never as invalid |
| `HeapGraph.SweptWeakHolds` | crates/jrs/src/heap.rs:317-344 | an association survives a sweep if and only if its key is native or kept |
| `HeapGraph.AwaitedMeans` | crates/jrs/src/heap.rs:282-315 | somebody waits for a dependent if and only if it is an object with a signal that is not aborted and has a removal or a listener for `abort` |
| `HeapGraph.ListeningIsHeard` | crates/jrs/src/heap.rs:282-315 | the listeners charged for are all listeners of the dependents that are objects |
| `HeapCost.CostsAdd` | crates/jrs/src/heap.rs:156-251 | a node more that is kept costs what it queues, registers and sweeps, and what waited for it |
| `HeapCost.CostsBounded` | crates/jrs/src/heap.rs:156-251 | whatever is kept, it costs no more than a bound on the heap alone |
| `MarkSteps.Released` | crates/jrs/src/heap.rs:253-280 | a marked key turns what waits for it into work, and every edge stays met |
| `MarkSteps.JustifiedGrows` | crates/jrs/src/heap.rs:156-251 | following a node only adds work that every closed set holds |
| `Heaps.Heap.Allocate` | crates/jrs/src/heap.rs:106-130 | a free slot is used before a new one; refused exactly when there is none and the limit is reached; a success issues a handle never issued before |
| `Heaps.Heap.Lookup` | crates/jrs/src/heap.rs:134-140 | a handle resolves if and only if it is live |
| `Heaps.Heap.Update` | crates/jrs/src/heap.rs:141-147 | writing through a handle changes that node only, and is refused exactly when the handle is not live |
| `Heaps.Heap.Activate` | crates/jrs/src/heap.rs:253-280 | the values waiting for marked keys become work, each once and as many as the map has for them, and no key of the map that is marked still waits |
| `Heaps.Heap.TraceAbortDependents` | crates/jrs/src/heap.rs:282-315 | exactly the awaited dependents become work, at one unit of fuel each and one for each listener |
| `Heaps.Heap.FollowWeak` | crates/jrs/src/heap.rs:156-251 | every association of a marked map is met: its value is work, or waits for its key; as many become work as have a native or marked key |
| `Heaps.Heap.Follow` | crates/jrs/src/heap.rs:156-251 | every edge of a marked node is met and nothing unreachable is added; the work and the fuel together change by exactly what the node costs |
| `Heaps.Heap.Visit` | crates/jrs/src/heap.rs:156-251 | one step of the marker keeps what is covered and what is justified, and costs exactly what the node costs and what waited for it |
| `Heaps.Heap.Mark` | crates/jrs/src/heap.rs:156-237 | with no repeated pass the marks are the least closed set, at exactly its cost; a refusal names a broken reference or less fuel than what is reached costs |
| `Heaps.Heap.SweepWeakmaps` | crates/jrs/src/heap.rs:317-344 | every map lost exactly the associations whose key died |
| `Heaps.Heap.Sweep` | crates/jrs/src/heap.rs:238-249 | unmarked nodes are gone, their slots have a new generation while there is one, and only those with one are free again |
| `Heaps.Heap.Collect` | crates/jrs/src/heap.rs:156-251 | on a heap without a broken reference there is one answer: with less fuel than the cost of the least closed set a refusal, and else the fuel less that cost; the kept set is the least closed set and the heap after it exactly the swept one; any other refusal means that a handle reached names nothing |
| `Heaps.LeastIsOne` | crates/jrs/src/heap.rs:156-251 | there is one such set |
| `Heaps.LeastExists` | crates/jrs/src/heap.rs:156-251 | without a broken reference there is such a set |
| `Heaps.Shortage` | crates/jrs/src/heap.rs:156-251 | what has been counted when the fuel is gone is no more than the whole cost |
| `Heaps.NotBroken` | crates/jrs/src/heap.rs:156-251 | a collection that succeeded met no handle that names nothing |
| `HandleLifetimes.Ages` | crates/jrs/src/heap.rs:106-147 | over every run an expired handle stays expired and a live one was issued |
| `HandleLifetimes.IssuedOnce` | crates/jrs/src/heap.rs:106-130 | over every run no handle is issued twice |
| `HandleLifetimes.ResolvesToItsNode` | crates/jrs/src/heap.rs:106-251 | over every run a live handle resolves to the node last written through it, less associations collections removed |
| `StackBackend.ExprRuns` | crates/jrs/src/bytecode.rs:8556-8712 | the stack code of every expression pushes its value and leaves its bindings, and nothing else |
| `StackBackend.StmtRuns` | crates/jrs/src/bytecode.rs:7749-7964 | the stack code of every statement completes as the source does: at its end, at the break or the continue target, with its value as the result, or runs on |
| `StackBackend.ListRuns` | crates/jrs/src/bytecode.rs:7736-7748 | the same for statement lists |
| `Patching.StmtLed` | crates/jrs/src/bytecode.rs:7864-7882 | the code of a statement depends on the loop around it in its open jumps alone |
| `StackCompiler.Compiler.Emit` | crates/jrs/src/bytecode.rs:7658-7668 | one instruction more, refused exactly at the limit |
| `StackCompiler.Compiler.Patch` | crates/jrs/src/bytecode.rs:7669-7683 | a jump gets its target and nothing else changes; anything but a jump is refused |
| `StackCompiler.Compiler.Expression` | crates/jrs/src/bytecode.rs:8556-8712 | emits the code of the expression, jumps patched, exactly when it fits the limit |
| `StackCompiler.Compiler.ShortCircuit` | crates/jrs/src/bytecode.rs:8646-8658 | the short-circuit operators, with the jump over the right operand patched |
| `StackCompiler.Compiler.Choice` | crates/jrs/src/bytecode.rs:8694-8702 | the conditional, with both jumps patched |
| `StackCompiler.Compiler.Assignment` | crates/jrs/src/bytecode.rs:8664-8679 | plain and compound assignment to a bound name |
| `StackCompiler.Compiler.Statement` | crates/jrs/src/bytecode.rs:7749-7846 | emits the statement's code with its jumps out open and noted in the loop around it; refused exactly for the limit or a jump outside a loop |
| `StackCompiler.Compiler.Selection` | crates/jrs/src/bytecode.rs:7786-7798 | `if`, with both jumps patched and the open jumps of both arms noted |
| `StackCompiler.Compiler.Statements` | crates/jrs/src/bytecode.rs:7736-7748 | a statement list in order |
| `StackCompiler.Compiler.LoopControl` | crates/jrs/src/bytecode.rs:7864-7882 | an open jump noted in the innermost loop |
| `StackCompiler.Compiler.Close` | crates/jrs/src/bytecode.rs:7936-7942 | patching the noted jumps gives the code with known targets, and the loop is left |
| `StackCompiler.Compiler.LoopBody` | crates/jrs/src/bytecode.rs:7902-7944 | `while`, with every jump of it closed |
| `StackCompiler.Compiler.DoWhileBody` | crates/jrs/src/bytecode.rs:7946-7964 | `do`-`while`, with every jump of it closed |
| `RegisterTypes.MergeIsLeastUpperBound` | crates/jrs/src/bytecode.rs:619-635 | merging is the least upper bound of an order of height at most three |
| `RegisterTypes.BelowIsMerge` | crates/jrs/src/bytecode.rs:619-635 | the order is what merging makes of it |
| `RegisterTypes.Widens` | crates/jrs/src/bytecode.rs:619-635 | a value of a type is one of every type above |
| `RegisterTypes.FitsIsOrder` | crates/jrs/src/bytecode.rs:5921-5926 | the fit check is exactly the pointwise order |
| `RegisterTypes.MergeBindingsIsLeast` | crates/jrs/src/bytecode.rs:5889-5919 | merged environments are the least above both |
| `TypeInference.InferStmtRises` | crates/jrs/src/bytecode.rs:6075-6202 | a pass of the inference only goes up |
| `TypeInference.PassRises` | crates/jrs/src/bytecode.rs:6130-6202 | a pass that changes anything uses up part of a bounded rank |
| `TypeInference.FixedPointHolds` | crates/jrs/src/bytecode.rs:6219-6231 | a further pass does not change the inferred environment |
| `TypeInference.InferToFixedPoint` | crates/jrs/src/bytecode.rs:6204-6231 | the loop stops within 4n+1 passes at that environment |
| `InferredTypes.FixedPointIsLeast` | crates/jrs/src/bytecode.rs:6204-6231 | for programs without undefined and with plain assignments, the inferred environment is the least that takes in the start and every assignment |
| `InferredTypes.GlobalsAreTyped` | crates/jrs/src/bytecode.rs:5747-5755 | the three names that are never bound have the types of their values |
| `LoweredTypes.SumHint` | crates/jrs/src/bytecode.rs:5738-5817 | of a sum, a difference, a product or a quotient the inference tells the type exactly where the lowering has a typed instruction |
| `LoweredTypes.BitwiseHint` | crates/jrs/src/bytecode.rs:5738-5817 | of a power or a bitwise operation it tells a number, unless an operand may be an object |
| `LoweredTypes.ComparisonHint` | crates/jrs/src/bytecode.rs:5738-5817 | of a comparison it always tells a truth value |
| `LoweredTypes.LoweredFollows` | crates/jrs/src/bytecode.rs:5738-5817 | from any environment below one that the inference adds nothing to, the lowered expression is of the inferred type or below, and the environment after it stays below |
| `ExpressionAcceptance.RefusedOperators` | crates/jrs/src/bytecode.rs:5296-5440 | which binary operators are refused, for every pair of types: bitwise ones on what may be an object, and equality of a primitive with an object or of a built-in function |
| `ExpressionAcceptance.RefusedCompounds` | crates/jrs/src/bytecode.rs:5464-5595 | the same for the operators of compound assignment |
| `ExpressionAcceptance.AcceptedIsSound` | crates/jrs/src/bytecode.rs:1317-1490 | whatever expression is accepted reads initialized names, assigns names that may be assigned, and has the registers it needs |
| `ExpressionAcceptance.SoundIsAccepted` | crates/jrs/src/bytecode.rs:1317-1490 | without objects and without assignments in the arms of conditionals, that is enough |
| `ExpressionAcceptance.AcceptedExactly` | crates/jrs/src/bytecode.rs:1317-1490 | so there an expression is accepted if and only if it is sound and there are registers for it |
| `StatementAcceptance.AcceptedIsAllowed` | crates/jrs/src/bytecode.rs:3865-3930 | with every binding initialized, whatever statement is accepted is sound where it can be reached, jumps only out of loops, and has its registers |
| `ScriptAcceptance.AllowedWidened` | crates/jrs/src/bytecode.rs:4447-4621 | the second attempt at a loop, from the inferred types, takes every simple loop that is allowed, nested ones included |
| `ScriptAcceptance.ScriptIsAllowed` | crates/jrs/src/bytecode.rs:7267-7359 | an accepted script is not empty, allowed, has its registers, and its value is no built-in function |
| `ScriptAcceptance.AcceptedScripts` | crates/jrs/src/bytecode.rs:7267-7359 | a simple script over initialized bindings, none tracked as an object or as undefined, is accepted if and only if it says something, assigns what may be assigned, jumps only out of loops, and has registers |
| `AcceptanceLimits.ArmsAreRefused` | crates/jrs/src/bytecode.rs:1676-1702 | a sound conditional whose arms assign different types is refused |
| `AcceptanceLimits.ConditionIsRefused` | crates/jrs/src/bytecode.rs:4489-4554 | an allowed loop whose condition assigns is refused |
| `AcceptanceLimits.UndefinedIsRefused` | crates/jrs/src/bytecode.rs:4447-4464 | an allowed loop that makes a number undefined and adds to it is refused at both attempts |
| `AcceptanceLimits.KeptIsRefused` | crates/jrs/src/bytecode.rs:4447-4464 | an allowed loop that keeps the value of a compound assignment is refused at both attempts |
| `PlainTypes.StatementIsPlain` | crates/jrs/src/bytecode.rs:3865-3930 | where no binding is of a type of objects, nothing a statement leaves is |
| `RegisterExpressions.SelectedRuns` | crates/jrs/src/bytecode.rs:5296-5440 | whichever instruction the operand types select, it computes the operator and a value of the tracked type |
| `RegisterExpressions.CompoundSelectedRuns` | crates/jrs/src/bytecode.rs:5464-5595 | the same for compound assignment |
| `TypedInstructions.TypedExactly` | crates/jrs/src/bytecode.rs:5296-5440 | a typed instruction is selected exactly where every value of the operand types is a number, undefined included for arithmetic, or a string that is joined |
| `TypedInstructions.TypedCompound` | crates/jrs/src/bytecode.rs:5464-5595 | the same for compound assignment, where a power has none |
| `RegisterExpressions.ExprRuns` | crates/jrs/src/bytecode.rs:1317-1490 | the register code of every accepted expression leaves its value, of its tracked type, in the accumulator, its bindings in their registers, and no register it may not use changed |
| `StatementKinds.NormalFits` | crates/jrs/src/bytecode.rs:3865-3930 | a statement that reaches its end is one the lowering says may, and has a value exactly when it says so |
| `RegisterStatements.StmtRuns` | crates/jrs/src/bytecode.rs:3865-3930 | the register code of every accepted statement completes as the source does, with the value so far where a jump or the end of the statement expects it |
| `RegisterStatements.ListRuns` | crates/jrs/src/bytecode.rs:4194-4245 | the same for blocks, whose value is kept in a register |
| `RegisterStatements.IfRuns` | crates/jrs/src/bytecode.rs:5128-5239 | the same for `if`, whose branches start from undefined as section 14.6.2 of ECMA-262 asks |
| `RegisterStatements.LoopRuns` | crates/jrs/src/bytecode.rs:4447-4621 | the same for loops, `break` and `continue` included, from the first or the widened attempt |
| `RegisterLowering.Lowerer.Allocate` | crates/jrs/src/bytecode.rs:5629-5634 | the next register, refused exactly at the last |
| `RegisterLowering.Lowerer.Release` | crates/jrs/src/bytecode.rs:5649-5655 | the last register goes back, which is the one released or a refusal; without any it is refused |
| `RegisterLowering.Lowerer.PatchJump` | crates/jrs/src/bytecode.rs:5676-5690 | a jump is aimed relative to the instruction after it; anything else is refused |
| `RegisterLowering.Lowerer.Lower` | crates/jrs/src/bytecode.rs:1317-1490 | emits exactly the code, type and bindings of the expression, refuses exactly where those are refused, and gives all registers back |
| `RegisterLowering.Lowerer.LowerConditional` | crates/jrs/src/bytecode.rs:1676-1702 | the conditional, refused when its arms leave different bindings |
| `RegisterLowering.Lowerer.LowerShortCircuit` | crates/jrs/src/bytecode.rs:5269-5294 | the short-circuit operators, with merged bindings |
| `RegisterLowering.Lowerer.LowerBinary` | crates/jrs/src/bytecode.rs:5296-5400 | binary operators over two registers, refused exactly where `ExpressionAcceptance.RefusedOperators` says or the operands or the registers are |
| `RegisterLowering.Lowerer.LowerAssignment` | crates/jrs/src/bytecode.rs:5464-5595 | plain assignment retypes its binding |
| `RegisterLowering.Lowerer.LowerCompound` | crates/jrs/src/bytecode.rs:5464-5595 | compound assignment retypes its binding |
| `RegisterLowering.Lowerer.LowerStatement` | crates/jrs/src/bytecode.rs:3865-3930 | emits the code of the statement but for its open jumps, which are noted; refuses exactly where the lowering on values does, and then the code before, the loops and the completions around stand as they were |
| `RegisterLowering.Lowerer.LowerIfStatement` | crates/jrs/src/bytecode.rs:5128-5239 | `if`, with both jumps closed and the bindings of the arms joined |
| `RegisterLowering.Lowerer.LowerBlock` | crates/jrs/src/bytecode.rs:4194-4245 | a block |
| `RegisterLowering.Lowerer.LowerLoopJump` | crates/jrs/src/bytecode.rs:4296-4324 | a jump out of a round, refused outside a loop or when the bindings do not fit its head |
| `RegisterLowering.Lowerer.LowerWhile` | crates/jrs/src/bytecode.rs:4489-4554 | `while`, with every jump of it closed |
| `RegisterLowering.Lowerer.LowerDoWhile` | crates/jrs/src/bytecode.rs:4556-4621 | `do`-`while`, with every jump of it closed |
| `RegisterLowering.Lowerer.LowerLoopStatement` | crates/jrs/src/bytecode.rs:4447-4464 | a refused attempt is taken back whole before the widened one |
| `OpenJumps.OpenClosed` | crates/jrs/src/bytecode.rs:4542-4547 | closing open jumps gives the code that was to be |
| `RegisterScripts.ScriptRuns` | crates/jrs/src/bytecode.rs:7267-7359 | the register code of a script returns the value the source means, with its bindings in their registers, or runs on |
| `ScriptCompilers.Compile` | crates/jrs/src/bytecode.rs:505-539 | the stack code of a script, exactly when it fits the limit and no jump stands outside a loop |
| `ScriptCompilers.LowerRegisterScript` | crates/jrs/src/bytecode.rs:7267-7359 | the register code of a script, exactly when it has a statement that is not empty, every statement is accepted and the type of its value may leave it; `ScriptAcceptance.AcceptedScripts` says when that is |
| `BindingPlaces.StmtPlaces` | crates/jrs/src/bytecode.rs:3865-3930 | lowering a statement moves no binding to another register |
| `BackendAgreement.BothFollow` | crates/jrs/src/bytecode.rs:448-454 | both machines do what the source means: halt with its value and bindings, or run for as long as it does |
| `BackendAgreement.BackendsAgree` | crates/jrs/src/bytecode.rs:448-454 | where one backend halts the other halts with the same value and the same bindings |
| `BackendAgreement.LawsCanHold` | crates/jrs/src/engine/interpreter.rs:2987-3240 | the laws asked of the operators are met by some operators |
| `ScriptCompilers.EmittedCodeAgrees` | crates/jrs/src/bytecode.rs:448-454 | what the two compilers emit for a script answers alike from its start |
| `TrackedTypes.ExpressionsKeepTypes` | crates/jrs/src/bytecode.rs:1317-1490 | the value of an accepted expression inhabits its type, and every binding after it its tracked type |
| `TrackedTypes.StatementsKeepTypes` | crates/jrs/src/bytecode.rs:3865-3930 | after an accepted statement every binding inhabits its tracked type; after a jump out, the type it has at the loop head |
| `TrackedTypes.HeadKeepsTypes` | crates/jrs/src/bytecode.rs:4489-4621 | at the loop head, in every round, every binding inhabits the inferred type, which is above the one on entry |
| `TrackedValues.ValueIsTracked` | crates/jrs/src/bytecode.rs:3865-3930 | the value of an accepted statement without jumps is of the type tracked for it |
| `TrackedValues.JumpIsNotTracked` | crates/jrs/src/bytecode.rs:4556-4621 | with a jump it need not be: a loop that ends with undefined and is tracked as a string |
| `UninitializedBindings.AgreeExactly` | crates/jrs/src/bytecode.rs:448-454 | from any states that hold the bindings, the backends agree on every script both compilers take if and only if every binding is initialized |
| `UninitializedBindings.BackendsPart` | crates/jrs/src/bytecode.rs:448-454 | for every uninitialized binding there is a script both compilers take on which the stack machine stops at its read and the register machine returns undefined |
| `UninitializedBindings.ReadIsRefused` | crates/jrs/src/bytecode.rs:1317-1490 | a read of an uninitialized binding is refused |
| `UninitializedBindings.HeadIsGuessed` | crates/jrs/src/bytecode.rs:6075-6231 | a widened loop head gives such a binding a type |
| `UninitializedBindings.LoopIsAccepted` | crates/jrs/src/bytecode.rs:4447-4464 | so a loop that reads it is accepted at the second attempt, with the code it has when the binding is initialized |
| `UninitializedBindings.StackStops` | crates/jrs/src/vm.rs:1131-1134 | where the stack machine stops at the read |
| `UninitializedBindings.RegisterGoesOn` | crates/jrs/src/engine/interpreter.rs:2733-2740 | and the register machine, whose frame starts as undefined, returns that |
| `ListSpec.SpliceLists` | crates/collections/src/index_list.rs:221-244 | writing a node between two neighbours gives the list with it inserted, and no other list's link changes |
| `ListSpec.CutLists` | crates/collections/src/index_list.rs:269-290 | joining the neighbours of a node gives the list without it, and no other list's link changes |
| `ListSpec.MarkedNone` | crates/collections/src/index_list.rs:16-19 | links that mark the mark of no node as one of a list hold no list |
| `ListSpec.OtherListsKept` | crates/collections/src/index_list.rs:175-290 | every other list in the same links keeps its sequence |
| `ListSpec.ListsAreApart` | crates/collections/src/index_list.rs:26-45 | no node is in two lists |
| `IndexLists.IndexList.New` | crates/collections/src/index_list.rs:119-129 | an empty list; the identifier that marks nothing is refused |
| `IndexLists.IndexList.Claim` | crates/collections/src/index_list.rs:313-319 | a node may be taken if and only if it exists and no list owns it, and the refusal says which |
| `IndexLists.IndexList.PushFront` | crates/collections/src/index_list.rs:175-187 | the sequence with the node before it, or nothing changed; pushing the mark of no node, where there is a link for it, leaves no list and no head |
| `IndexLists.IndexList.PushBack` | crates/collections/src/index_list.rs:195-207 | the sequence with the node after it, or nothing changed; pushing the mark of no node leaves no list and no tail |
| `IndexLists.IndexList.InsertAfter` | crates/collections/src/index_list.rs:221-244 | the sequence with the node after a given one, or nothing changed and the reason; inserting the mark of no node leaves no list |
| `IndexLists.IndexList.Unlink` | crates/collections/src/index_list.rs:269-290 | the sequence without the node if and only if it holds it, else nothing changed |
| `IndexLists.IndexList.PopFront` | crates/collections/src/index_list.rs:248-252 | the first node and the rest |
| `IndexLists.IndexList.PopBack` | crates/collections/src/index_list.rs:256-260 | the last node and the rest |
| `IndexLists.IndexList.Contains` | crates/collections/src/index_list.rs:294-296 | membership in the sequence |
| `IndexLists.Iter.Next` | crates/collections/src/index_list.rs:380-389 | the next node of the sequence |
| `IndexLists.Walk` | crates/collections/src/index_list.rs:303-309 | iterating yields the sequence |
| `Rects.IntersectIsBoth` | crates/gfx/src/rect.rs:68-88 | the pixels of an intersection are those of both |
| `Rects.OverlapsIsShared` | crates/gfx/src/rect.rs:117-119 | rectangles overlap if and only if they share a pixel |
| `Rects.UnionIsLeast` | crates/gfx/src/rect.rs:93-113 | the union is the least rectangle around both |
| `Rects.UnionCovers` | crates/gfx/src/rect.rs:93-113 | and covers the pixels of both |
| `Rects.ClipFits` | crates/gfx/src/rect.rs:123-125 | a clipped rectangle lies inside the surface and its ends do not saturate |
| `Rects.ClipKeeps` | crates/gfx/src/rect.rs:123-125 | clipping takes away exactly the pixels the surface does not have |
| `DamageSpec.PushKeeps` | crates/gfx/src/rect.rs:191-219 | a push keeps the rectangles apart, within the capacity and inside any box around them |
| `DamageSpec.PushCovers` | crates/gfx/src/rect.rs:191-219 | no damaged pixel is lost |
| `DamageSpec.DamageKeeps` | crates/gfx/src/rect.rs:191-219 | over every sequence of pushes: apart, within the capacity, inside any box around them |
| `DamageSpec.DamageCovers` | crates/gfx/src/rect.rs:182-219 | over every sequence of pushes of any rectangles, saturating ones included: every pixel pushed is covered, and none outside their bounds |
| `DamageClusters.DamageLinked` | crates/gfx/src/rect.rs:191-219 | while no push finds the set full, each rectangle held is the box around pushed ones that overlaps joined, and every pushed one that is not empty is in exactly one of them |
| `DamageClusters.ApartIsKept` | crates/gfx/src/rect.rs:191-219 | rectangles that do not overlap, up to the capacity, are held as they are |
| `DamageClusters.SpillsToOne` | crates/gfx/src/rect.rs:191-219 | a push that finds the set full leaves one rectangle, the box around everything |
| `DamageSets.Damage.Clear` | crates/gfx/src/rect.rs:171-173 | nothing is held |
| `DamageSets.Damage.Enclosing` | crates/gfx/src/rect.rs:182-184 | the union of what is held |
| `DamageSets.Damage.FindOverlapping` | crates/gfx/src/rect.rs:223-227 | the first rectangle but one that overlaps |
| `DamageSets.Damage.Remove` | crates/gfx/src/rect.rs:230-238 | the set without one rectangle |
| `DamageSets.Damage.Push` | crates/gfx/src/rect.rs:191-219 | the set after a push, merged or collapsed; the absorbing loop ends |
| `Pictures.RowsWrittenAt` | crates/gfx/src/surface.rs:226-262 | every pixel inside a written area is the one written, every other as it was, stride padding included |
| `Pictures.PastThePicture` | crates/gfx/src/surface.rs:226-262 | memory past the picture is as it was |
| `Surfaces.Surface.New` | crates/gfx/src/surface.rs:87-113 | accepted exactly for a picture with area, a stride of at least its width and enough bytes, without damage; each refusal with its reason |
| `Surfaces.Surface.Range` | crates/gfx/src/surface.rs:170-183 | where a run of pixels lies |
| `Surfaces.RunIsInside` | crates/gfx/src/surface.rs:170-183 | the test of a run means that it lies in its row exactly when its end does not saturate |
| `Surfaces.RunCanLeave` | crates/gfx/src/surface.rs:170-183 | where it does saturate, the run passes, lies in the memory of the picture and ends past the start of the next row |
| `Surfaces.Surface.WriteRow` | crates/gfx/src/present.rs:112-119 | one row of a sink is overwritten, or nothing |
| `Surfaces.Surface.ReadRow` | crates/gfx/src/surface.rs:187-189 | the pixels of a run |
| `Surfaces.Surface.Fill` | crates/gfx/src/surface.rs:226-237 | the clipped rectangle gets the color, nothing else changes, and exactly it is damaged |
| `Surfaces.Surface.Blit` | crates/gfx/src/surface.rs:242-262 | the clipped part of the source, converted, at its place; nothing else changes, and exactly it is damaged |
| `Pictures.Converted` | crates/gfx/src/format.rs:87-103 | a converted pixel decodes to the same color |
| `Pictures.ChannelsInOrder` | crates/gfx/src/format.rs:22-103 | the bytes of a pixel are the channels in the order its format spells, the unused one zero, both ways |
| `Surfaces.TakenAt` | crates/gfx/src/surface.rs:242-262 | every pixel a blit takes is the source's pixel at that offset, converted between the formats |
| `Presentation.Present` | crates/gfx/src/present.rs:69-98 | the damaged part of the shared area is copied; a format mismatch changes nothing |
| `Presentation.SharedIsBoth` | crates/gfx/src/present.rs:69-98 | a pixel is in the shared area if and only if both pictures have it |
| `Presentation.PresentedAt` | crates/gfx/src/present.rs:69-98 | a presented pixel is the surface's inside damage and shared area, and the sink's own elsewhere |
| `Presentation.PresentedPast` | crates/gfx/src/present.rs:69-98 | memory past the sink's picture is as it was |
| `Presentation.FillDraws` | crates/gfx/src/surface.rs:226-237 | every pixel a fill changes is damaged after it |
| `Presentation.BlitDraws` | crates/gfx/src/surface.rs:242-262 | every pixel a blit changes is damaged after it |
| `Presentation.DrawingKeepsStep` | crates/gfx/src/surface.rs:226-262 | over every run of drawing, surface and sink agree outside the damage |
| `Presentation.PresentingCatchesUp` | crates/gfx/src/present.rs:69-98 | then presenting makes them agree on the whole shared area and changes no undamaged pixel |
| `Base64Spec.Letter` | crates/encoding/src/base64.rs:191-195 | the character of a six-bit number, which its value gives back, and which is no pad |
| `Base64Spec.LetterOfValue` | crates/encoding/src/base64.rs:173-182 | a character with a value is the character of that value |
| `Alphabets.LettersAre` | crates/encoding/src/base64.rs:16 | the character of a number is the one at that place of the alphabet of RFC 4648 |
| `Alphabets.ValuesAre` | crates/encoding/src/base64.rs:173-182 | a character has a value if and only if it stands at that place of the alphabet |
| `Alphabets.FramesAre` | crates/encoding/src/pem.rs:35-58 | the frame lines of RFC 7468, the width of the strict form, the pad and the breaks |
| `Base64Spec.EncodedTakes` | crates/encoding/src/base64.rs:24-32 | an encoding has exactly the length asked for it |
| `Base64Spec.EncodedReads` | crates/encoding/src/base64.rs:104-138 | every encoding decodes to its bytes |
| `Base64Spec.QuantaAreEncoded` | crates/encoding/src/base64.rs:104-148 | what decodes to bytes is the encoding of them |
| `Base64Spec.DecodingIsCanonical` | crates/encoding/src/base64.rs:54-170 | a text decodes to bytes, given room, if and only if it is the encoding of them |
| `Base64.Encode` | crates/encoding/src/base64.rs:54-92 | the encoding over the buffer, or nothing written when it does not fit |
| `Base64.PadLength` | crates/encoding/src/base64.rs:151-170 | the pad, when it is the last zero, one or two characters and stands nowhere else |
| `Base64.PutQuantum` | crates/encoding/src/base64.rs:117-136 | the bytes of four characters, or the first thing wrong with them |
| `Base64Spec.WholeIsWritten` | crates/encoding/src/error.rs:13-15 | what a successful decoding has written is its whole answer |
| `Base64Spec.NothingIsWritten` | crates/encoding/src/error.rs:13-15 | a refusal has written nothing if and only if the length, the pad or the room is refused, or the first quantum is |
| `Base64Spec.RefusalCanWrite` | crates/encoding/src/error.rs:13-15 | a text that is refused after three bytes have been written |
| `Base64.RefusalIsClean` | crates/encoding/src/error.rs:13-15 | a refusal leaves every buffer as it was under exactly that condition |
| `Base64.Decode` | crates/encoding/src/base64.rs:104-138 | the length of the decoded bytes or the first error; in every case the bytes of the quanta before the refusal are written over the buffer, and nothing else |
| `Base64.DecodeQuanta` | crates/encoding/src/base64.rs:115-137 | the same from the first quantum on |
| `TextLines.Lines.Next` | crates/encoding/src/pem.rs:491-514 | the next of the lines of the text, split at CRLF, CR or LF |
| `TextLines.LinesOfEnded` | crates/encoding/src/pem.rs:474-515 | splitting undoes writing lines out |
| `TextLines.LinesBehind` | crates/encoding/src/pem.rs:474-515 | a text behind one that ends in a break adds its lines to it |
| `TextLines.SpanLines` | crates/encoding/src/pem.rs:259-284 | the stretch between two lines, without its last break, splits into the lines between them |
| `BodyStream.StreamIsWhole` | crates/encoding/src/pem.rs:338-422 | reading by quanta accepts what decoding the whole text accepts, with the same bytes |
| `BodyStream.FedIsPushed` | crates/encoding/src/pem.rs:352-379 | lines are read exactly when they may stand there and their joined characters are read |
| `BodyStream.FedHasRoom` | crates/encoding/src/pem.rs:289-308 | with the room asked for up front, reading never lacks it later |
| `PemTheorem.BodyReadsExactly` | crates/encoding/src/pem.rs:278-325 | a body is read as bytes if and only if its lines may stand there and join to their encoding |
| `PemTheorem.EncodedNeeds` | crates/encoding/src/pem.rs:289-305 | the room asked for an encoding is that of its bytes |
| `PemTheorem.ReadsExactly` | crates/encoding/src/pem.rs:239-325 | a text is read as a block if and only if its lines hold that block |
| `PemTheorem.RoundTrip` | crates/encoding/src/pem.rs:121-325 | what is written is read back with its label and bytes, at its width or a greater one, behind any explanatory text |
| `PemTheorem.StrictIsOneText` | crates/encoding/src/pem.rs:211-216 | the strict reader accepts a text if and only if the block's own lines stand in it, no begin line before and only empty lines after |
| `PemWriter.CheckLabel` | crates/encoding/src/pem.rs:444-460 | a label is allowed exactly when it is printable, with single spaces or hyphens inside only |
| `PemWriter.BlockTakes` | crates/encoding/src/pem.rs:80-94 | a block takes exactly the length asked for it |
| `PemWriter.Split` | crates/encoding/src/pem.rs:158-196 | pushed apart from the back in place, the body is its lines, no character lost and nothing else written |
| `PemWriter.EncodeWrapped` | crates/encoding/src/pem.rs:121-152 | the block's text over the buffer, or an error and nothing written |
| `PemReader.Quanta.Push` | crates/encoding/src/pem.rs:382-412 | one more character, the quantum it completes decoded behind the bytes so far; a refusal leaves the buffer as it was |
| `PemReader.Quanta.Take` | crates/encoding/src/pem.rs:352-379 | one more line, judged by its length first; a refusal leaves the quanta before it |
| `PemReader.Quanta.Finish` | crates/encoding/src/pem.rs:415-421 | all bytes, unless a quantum is unfinished |
| `PemReader.FindFrame` | crates/encoding/src/pem.rs:245-268 | reads on to the first frame line of its kind |
| `PemReader.ReadBody` | crates/encoding/src/pem.rs:278-325 | the body's bytes or the first error; in every case the quanta before the refusal are over the buffer, and lack of room comes before anything is written |
| `PemReader.Read` | crates/encoding/src/pem.rs:239-325 | the block of the text's lines, or the first error in the order the reader looks for them; in every case exactly what has then been written over the buffer |
| `PemRefusals.ReadWritesNothing` | crates/encoding/src/pem.rs:239-325 | reading has written nothing if and only if the frame is not whole, there is no room, or the lines or the characters up to the first quantum are refused |
| `PemRefusals.ReadRefusalIsClean` | crates/encoding/src/error.rs:13-15 | a refused block leaves every buffer as it was under exactly that condition |
| `PemRefusals.ReadRefusalCanWrite` | crates/encoding/src/error.rs:13-15 | a block, under any label, that is refused after three bytes have been written |
| `PemSpec.ReadIsWritten` | crates/encoding/src/pem.rs:239-325 | what has been written when a block is read is its bytes |
| `ElfSegments.OverlapsIsShared` | crates/elf/src/image.rs:93-102 | segments overlap if and only if they share a byte |
| `ElfSegments.AllowsIsInside` | crates/elf/src/image.rs:118-129 | a segment is allowed if and only if it starts in the bounds and every byte of it lies in them |
| `ElfSegments.FaultlessLoads` | crates/elf/src/image.rs:357-389 | a segment passes if and only if it is not both writable and executable, lies in the file and the bounds, and is aligned |
| `ElfFaults.FaultIsFirst` | crates/elf/src/image.rs:357-389 | each reason for a refusal is given if and only if it is the first of the six, in their order, that holds |
| `ElfFaults.PowersAre` | crates/elf/src/image.rs:357-389 | the test of an alignment finds exactly the powers of two |
| `ElfSegments.ApartIsKept` | crates/elf/src/image.rs:393-434 | rearranging segments neither parts them nor brings them together |
| `ElfOrder.SortByVaddr` | crates/elf/src/image.rs:393-417 | a sorted permutation, in place |
| `ElfOrder.CheckOverlaps` | crates/elf/src/image.rs:419-434 | comparing only neighbours that hold memory, sorted segments pass if and only if no two share a byte |
| `ElfFormat.SegmentIsRead` | crates/elf/src/image.rs:291-330 | a program header written field by field as the format lays it out is read as its segment, whatever else the file holds; any type but a loadable one as none |
| `ElfFormat.HeaderIsThere` | crates/elf/src/image.rs:291-330 | every 56 bytes are some program header |
| `ElfFormat.TableIsRead` | crates/elf/src/image.rs:291-335 | the segments read from a table of headers are those its loadable headers ask for, in order |
| `ElfFormat.HeaderIsRead` | crates/elf/src/image.rs:218-267 | a file header written field by field is read as those fields, or refused for the first field that is wrong |
| `ElfImage.RefusesNothing` | crates/elf/src/image.rs:291-335 | no header is refused if and only if every segment loads and there are at most sixteen |
| `ElfImage.Collect` | crates/elf/src/image.rs:291-335 | the loadable segments in table order, or the first refusal; `ElfFormat.TableIsRead` says what those are |
| `ElfImage.Parse` | crates/elf/src/image.rs:277-355 | header, table and segment errors in order; an overlap error if and only if some two segments share a byte; an image exactly when nothing is wrong, with the sorted permutation of its loadable headers |
| `ElfImage.ImageIsSound` | crates/elf/src/image.rs:7-10 | an image's segments are sorted, apart, between one and sixteen, each inside the file and the bounds, and it starts in one that may execute |

## Left out

- zlib frames (`crates/deflate/src/zlib.rs`): a header and a checksum around the codec.
- BitIO.Writer.Bits: nothing is said of the buffer after a refusal; a caller drops it.
- The heap's nodes are modelled by the handles they push, their weak map and their abort signal, not by the object and value types that hold them; `async_usage` and `weak_entries` only count.
- HandleLifetimes.ResolvesToItsNode: a write through a handle replaces the node as a whole, where the code lends the node out to be changed.
- Of the compilers: declarations and scopes, functions and closures, objects and arrays, `for`, `switch`, `try`, unary and update operators, names that are not bound, and destructuring.
- RegisterLowering.Lowerer.Lower: does not model the limits on constants, feedback slots and 32-bit jump offsets, each a refusal beyond 2^16 or 2^31 entries.
- RegisterLowering.Lowerer.Allocate: does not model the highest register and binding counts a code object records.
- StackCompiler.Compiler.Emit: counts the instructions of one function; nested functions, which share the limit, are not in the fragment.
- Values and operators of the engine are abstract: both machines share one operator function, of which `Lawful` asks what the typed instructions rely on; `LawsCanHold` shows that it can be met.
- BackendAgreement.BackendsAgree: asks that every binding is initialized, and so does ScriptCompilers.EmittedCodeAgrees; `UninitializedBindings.AgreeExactly` shows that this cannot be dropped.
- ScriptCompilers.EmittedCodeAgrees: see the line before.
- ScriptAcceptance.AcceptedScripts: is about simple scripts, over bindings that are not tracked as objects or as undefined; simple scripts leave out undefined, assignments in conditions and in the arms of conditionals, and compound assignments whose value is used; `AcceptanceLimits` has an allowed script of each kind that is refused. For all other scripts `ScriptAcceptance.ScriptIsAllowed` gives one direction.
- TrackedValues.ValueIsTracked: asks that nothing jumps; `TrackedValues.JumpIsNotTracked` shows that this cannot be dropped.
- Scripts of a realm, whose bindings are globals; the scripts modelled are those outside one.
- The accessors of links, lists and surfaces, `set_pixel`, and the boot framebuffer conversions of pixel formats.
- Presentation.Present: the sink is a surface, the one sink of the crate; other implementations of `PixelSink` are not.
- The hexadecimal codec of the encoding crate.
- ElfSegments.FaultlessLoads: a mask by a power of two less one is written as a remainder.
- ELF sections, symbols and the image's byte accessors.
