# Verified model of the roofline profiler

A Dafny model of the algorithms in `tools/roofline/src`, the machine profiler of this
repository, with proofs of what they promise for all sizes, runs and interleavings.
`dafny verify dfyconfig.toml` checks the whole project.

- `Cycles`, `Chase`, `Wiring`: Sattolo's shuffle, done in place with 32-bit entries, and the
  wiring of the pointer chase. The shuffle's result is one cycle for every sequence of draws,
  and draws and one-cycle permutations correspond one to one. The wiring reads the same
  permutation as a visiting order, and any order without gaps gives one cycle.
- `Latency`, `LatencyBench`, `Clock`, `Plateau`: the dependent walk, K cursors that never meet,
  the plateau search (shared with the RAM sweep), and the Little's-Law figure.
- `SweepProtocol`, `SweepRates`, `RamBench`: the multi-threaded sweep as a transition system over all
  interleavings of main, the workers and the clock; the rates reported of it; the kernels; the thread
  counts; the result.
- `Json`, `JsonProtocol`, `JsonWriter`, `JsonParser`, `JsonCompact`, `Numerals`: the streaming
  writer with its comma stack, a document that records what has been written so far, and an
  independent parser for the grammar of RFC 8259.
- `Report`, `ReportReader`, `ReportFields`: the JSON report as a client of the writer, and what its
  reader finds.
- `Smaps`, `Rounding`, `Disk`, `Compute`, `Arith`: the smaps scan, size rounding, the disk loops
  and the blocked INT8 dot product. `Wrappers` holds the option type.

What the outside world decides is a parameter, and the proofs hold for all its values: random
draws are any sequence with `0 <= j < i`; the clock is any sequence of readings that does not run
backwards; results of `write` and `pread`, the lines of `/proc/self/smaps` and the texts that a
stream prints for finite doubles are arguments. Doubles in computations are reals. Integers are
unbounded, and where the code relies on 32 or 64 bits the wrap-around is written out: entries of
the permutation, `% count` on start cursors, byte counts and their sum, size rounding, the smaps
sum and the INT32 lanes.

Where the code and its documentation differ, the model follows the code:

- `chase.hpp:17-18` promises no fixed points; a count of 1 gives one (`Chase.SattoloFixedPointFreeIff`).
- `chase.hpp:33-35` promises a visit of every node; past 2^32 nodes the 32-bit fields cannot keep
  it (`Wiring.WireSingleCycleIff`).
- `ram_bench.hpp:36-37` speaks of 5 % per added thread; the loop compares consecutive
  thread counts, and goes on at growth of exactly 5 %. Up to 5 threads only such an exact step can
  tell the two apart, from 6 threads on also a step that adds several threads
  (`Plateau.PerThreadPointIff`, `RamBench.FewThreadsPointIff`, `RamBench.ExactGrowthDiffers`,
  `RamBench.LateLevellingDiffers`); for all measurements they agree only on a single thread
  (`RamBench.DocumentedPointIff`).
- `disk_bench.hpp:21-22` promises a file of the rounded size; a short write that is not made up
  for leaves a longer one (`Disk.CreatedExactlyIff`, `Disk.ShortWriteOvershoots`).
- `util.hpp:125-133` escapes only quotes and backslashes, so control characters make the output
  invalid JSON (`JsonParser.RoundTripIff`).

A count of 0 is outside `build_single_cycle_permutation` (its loop index wraps and leaves the
vector). `Latency.NodeCount` shows that the latency bench never passes it. The hugepage bench has a
count of 0 only for a rounded size of 0 (`Rounding.HugepageNodeCount`), and then it relies on `mmap`
refusing that size, after which it returns before any wiring.

In the writer the source's calls are methods of the class `JsonWriter.Stream`. Its ghost field
`doc` is the document built so far, `None` once an illegal call was made. The methods of `Report`
that write a section ask for a writer at which a value may come; that is where `write_json` calls
them.

## Model

| member | source | states |
|---|---|---|
| `Chase.BuildSingleCyclePermutation` | tools/roofline/src/chase.hpp:21-31 | the in-place fill and swap loops leave exactly the shuffle of the 32-bit index list by the draws |
| `Chase.SwapMergesCycles` | tools/roofline/src/chase.hpp:28 | swapping the entries at i and at a smaller j merges i's cycle into j's, so that every cycle still holds exactly one index below i |
| `Chase.ShuffleRooted` | tools/roofline/src/chase.hpp:25-29 | that invariant holds through the whole loop, for every sequence of draws with 0 <= j < i |
| `Chase.SattoloIsOneCycle` | tools/roofline/src/chase.hpp:17-20 | whatever is drawn, the result is a permutation in which every index reaches every index |
| `Chase.SattoloFixedPointFreeIff` | tools/roofline/src/chase.hpp:17-18 | "no fixed points" holds exactly for counts above 1; the one-entry result maps 0 to 0 |
| `Chase.ShuffleKeepsHighPositions` | tools/roofline/src/chase.hpp:25-29 | a position is never touched again after its own step |
| `Chase.SattoloOnto` | tools/roofline/src/chase.hpp:21-31 | every one-cycle permutation comes out for some draws |
| `Chase.SattoloOneToOne` | tools/roofline/src/chase.hpp:21-31 | different draws give different permutations |
| `Chase.ShortEntries` | tools/roofline/src/chase.hpp:22-29 | for any count the result is the shuffle of the indices with each entry cut to its low 32 bits |
| `Chase.BuilderIsOneCycleIff` | tools/roofline/src/chase.hpp:22-23 | with uint32_t entries the result is one cycle exactly when count <= 2^32 |
| `Cycles.HubMakesOneCycle` | tools/roofline/src/chase.hpp:17-20 | in a permutation, one index that all others reach makes it one cycle |
| `Cycles.WalkVisitsAllOnce` | tools/roofline/src/chase.hpp:33-35 | a walk on one cycle of n nodes is back at its start after n hops and not before, and its first n stops are all the nodes, each once |
| `Wiring.WireSingleCycle` | tools/roofline/src/chase.hpp:36-43 | the loop leaves the wired array; it is one cycle exactly when count <= 2^32; padding and nodes past count are unchanged |
| `Wiring.WrittenOnce` | tools/roofline/src/chase.hpp:38-42 | each listed node is written by its own loop step alone, and then points to the node listed after it |
| `Wiring.LastWriteStands` | tools/roofline/src/chase.hpp:38-42 | in an order with repeated entries the last write to a node stands |
| `Wiring.OrderGivesOneCycle` | tools/roofline/src/chase.hpp:33-42 | a successor array that follows a visiting order without gaps is one cycle; nothing else about the order matters |
| `Wiring.WiredIsOneCycle` | tools/roofline/src/chase.hpp:33-43 | so wiring any bijection gives one cycle, whatever the nodes held before |
| `Wiring.WireSingleCycleIff` | tools/roofline/src/chase.hpp:33-43 | the promise of a single cycle is kept exactly when count <= 2^32, for any draws and old contents |
| `Wiring.LiveNodesClosed` | tools/roofline/src/chase.hpp:36-43 | even for wider arrays a walk from a 32-bit index never reaches a node that was not wired |
| `Latency.NodeCount` | tools/roofline/src/latency_bench.cpp:21-22 | a footprint below 128 bytes gets two nodes, any other as many 64-byte nodes as fit |
| `Latency.BuildChaseArray` | tools/roofline/src/latency_bench.cpp:20-27 | the fresh array is one cycle exactly when its count fits 32 bits |
| `Latency.MeasureDependentLatency` | tools/roofline/src/latency_bench.cpp:29-44 | the walk ends at the node 64 hops per round behind node 0, and the result is the time from before the loop to the reading after it, over those hops (hugepage_bench.cpp:22-34 is the same loop) |
| `Latency.StartsAreLive` | tools/roofline/src/latency_bench.cpp:54-57 | the start cursors are the multiples of count / K, cut to 32 bits, and all of them are wired nodes |
| `Latency.StartsDistinctIff` | tools/roofline/src/latency_bench.cpp:54-57 | the start cursors are pairwise different exactly when no stride multiple wraps to 0 in 32 bits, which needs count > 2^32 |
| `Latency.WideArrayStartsMeet` | tools/roofline/src/latency_bench.cpp:54-57 | with 2^33 nodes two cursors start on the same node |
| `Latency.AdvanceCursors` | tools/roofline/src/latency_bench.cpp:62-64 | one round moves every cursor one hop |
| `Latency.MeasureMlpBandwidth` | tools/roofline/src/latency_bench.cpp:50-76 | the checksum is the sum of next^(16 rounds) of the start cursors; the bandwidth is that of 16 K hops per stop test |
| `Latency.BandwidthMeaning` | tools/roofline/src/latency_bench.cpp:68-75 | such a bandwidth is 64 bytes for each hop over the time from before the loop to the reading after it, and 0 when no time passed |
| `Latency.CursorsStayApart` | tools/roofline/src/latency_bench.cpp:53-66 | on the wired cycle the cursors are pairwise different after every round |
| `Latency.CursorVisitsEachNodeOnce` | tools/roofline/src/latency_bench.cpp:61-65 | in any count consecutive rounds each cursor meets each node in exactly one of them |
| `LatencyBench.TriedAreTheFittingOnes` | tools/roofline/src/latency_bench.cpp:90-96 | breaking at the first misfit loses nothing: exactly the candidates within both limits are tried |
| `LatencyBench.RunLatencyBench` | tools/roofline/src/latency_bench.cpp:80-121 | result fields: chain latency over the clock readings, one bandwidth for each of the stream counts 1, 2, 4, ... 128 within both limits, the plateau point with the meaning above, and the concurrency estimate |
| `LatencyBench.LittlesLaw` | tools/roofline/src/latency_bench.cpp:113-117 | the line size and unit factors cancel: the estimate is a quotient of two hop rates |
| `LatencyBench.ReportedOutstandingMeaning` | tools/roofline/src/latency_bench.cpp:41-43 | the reported estimate is the plateau run's hops per ns over the dependent chain's hops per ns, and 0 when one of the two saw no time pass |
| `Clock.RateIsQuotient` | tools/roofline/src/latency_bench.cpp:73-75 | the giga-unit rate formula is units over nanoseconds, and 0 when no time passed |
| `Plateau.FindPlateau` | tools/roofline/src/ram_bench.cpp:170-183 | the search loop returns the chosen point; a chosen step of 0 would read as not found (latency_bench.cpp:98-111 is the same loop) |
| `Plateau.ChosenPointMeaning` | tools/roofline/src/ram_bench.cpp:166-183 | for non-negative bandwidths a point is the chosen one exactly when: silence, then at least 5 % growth per step up to the point, which beats all before it and is at least 1.05^m times the point m steps earlier; after it growth is below 5 % or nothing follows |
| `Plateau.ChosenPointUnique` | tools/roofline/src/ram_bench.cpp:170-179 | for any bandwidths, silence and growth up to a point and levelling behind it already determine the point |
| `Plateau.PerThreadPointIff` | tools/roofline/src/ram_bench.hpp:36-37 | the loop never stops before the point from which growth is no more than 5 % per added thread, and stops exactly there if and only if each step that is slow only per thread has a levelling step before it |
| `Plateau.SingleThreadStepsIff` | tools/roofline/src/ram_bench.hpp:36-37 | where each step adds one thread the loop's point is the documented one exactly when each step of exactly 5 % growth has a levelling step before it |
| `RamBench.MaskRoundsDown` | tools/roofline/src/ram_bench.cpp:22 | the bitwise and with ~63 rounds any 64-bit value down to a multiple of 64 |
| `RamBench.AlignUpIff` | tools/roofline/src/ram_bench.cpp:22 | the buffer size, computed with the mask, is the least multiple of 64 at or above n exactly when n + 63 does not wrap; otherwise it is 0 |
| `RamBench.PassCoversBuffer` | tools/roofline/src/ram_bench.cpp:22-78 | 8-byte and 16-byte passes cover the rounded buffer with nothing left over |
| `RamBench.ReadKernel` | tools/roofline/src/ram_bench.cpp:40-52 | the sum is rounds times the word sum modulo 2^64; the result is rounds times bytes modulo 2^64 |
| `RamBench.WritePlainKernel` | tools/roofline/src/ram_bench.cpp:54-64 | afterwards word i holds (pattern + i) mod 2^64 |
| `RamBench.WriteNtKernel` | tools/roofline/src/ram_bench.cpp:66-78 | afterwards every word covered by a 16-byte store holds the pattern and the others are untouched |
| `RamBench.RunWorker` | tools/roofline/src/ram_bench.cpp:113-126 | on the clock readings that a completed run gave a worker, its kernel returns what the run left in its slot, and leaves the buffer as that kernel does |
| `RamBench.ThreadSteps` | tools/roofline/src/ram_bench.cpp:82-93 | the loop computes the list of fitting candidates closed by the maximum |
| `RamBench.ThreadStepsMeaning` | tools/roofline/src/ram_bench.cpp:82-93 | strictly increasing within [1, max], all fitting candidates, ending in max; empty for max <= 0 |
| `RamBench.ThreadStepsUnique` | tools/roofline/src/ram_bench.cpp:82-93 | those properties determine the list |
| `RamBench.Sweep` | tools/roofline/src/ram_bench.cpp:95-142 | one point for each thread count: passes_i * bytes_i summed over that count's workers, modulo 2^64, over the time between main's two clock readings, and that rate per thread |
| `RamBench.EveryWorkerHasBuffer` | tools/roofline/src/ram_bench.cpp:101-113 | every thread count swept is at least 1 and at most the number of buffers, so each worker's buffer exists |
| `RamBench.PointIsNoOverclaim` | tools/roofline/src/ram_bench.cpp:130-139 | with a duration above 0, or a total of 0 bytes, no reported rate exceeds the sum of the rates its workers saw over their own intervals |
| `RamBench.RunRamBench` | tools/roofline/src/ram_bench.cpp:146-186 | the two input fields, the three sweeps, the single-thread ceiling from the 1-thread point, and the saturation point, which has the meaning above in the reported figures and which the 0 sentinel never hides; a negative thread count is an error |
| `RamBench.DocumentedPointIff` | tools/roofline/src/ram_bench.hpp:36-39 | the saturation point is the documented one for all measurements exactly when no second thread is tried |
| `RamBench.FewThreadsPointIff` | tools/roofline/src/ram_bench.hpp:36-39 | up to 5 threads it is the documented one exactly for measurements in which each step of exactly 5 % growth has a levelling step before it |
| `RamBench.ExactGrowthDiffers` | tools/roofline/src/ram_bench.hpp:36-39 | bandwidths 20 and 21 at 1 and 2 threads have stopped growing by more than 5 % at 1 thread, where the loop goes on |
| `RamBench.DocumentedPointForMeasurements` | tools/roofline/src/ram_bench.hpp:36-39 | for any thread limit, the measurements for which it is the documented one |
| `RamBench.LateLevellingDiffers` | tools/roofline/src/ram_bench.hpp:36-39 | bandwidths 1, 2, 3, 4 and 4.3 at 1, 2, 3, 4 and 6 threads level off per added thread at 4, where the loop goes on |
| `SweepProtocol.StepKeepsInv` | tools/roofline/src/ram_bench.cpp:101-133 | every step of main, of a worker or of the clock keeps the protocol invariant |
| `SweepProtocol.RunKeepsInv` | tools/roofline/src/ram_bench.cpp:101-133 | so it holds after every interleaving |
| `SweepProtocol.NoKernelBeforeGo` | tools/roofline/src/ram_bench.cpp:104-131 | no kernel pass is made before all workers are spawned and go is set |
| `SweepProtocol.IntervalsNest` | tools/roofline/src/ram_bench.cpp:111-133 | every worker's clock interval lies inside main's wall interval, and both last at least the asked duration |
| `SweepProtocol.OnlyOwnerWrites` | tools/roofline/src/ram_bench.cpp:126 | a slot changes only in its own worker's store, from 0 to that worker's byte count |
| `SweepProtocol.StoredOnce` | tools/roofline/src/ram_bench.cpp:126 | at any point of any run slot i has been stored once if worker i has exited, and never otherwise |
| `SweepProtocol.EverySlotStoredOnce` | tools/roofline/src/ram_bench.cpp:103-136 | in every completed run each slot was stored exactly once and holds passes times bytes modulo 2^64 |
| `SweepProtocol.WallReadings` | tools/roofline/src/ram_bench.cpp:130-133 | main's wall interval begins and ends with its own two clock readings |
| `SweepProtocol.TimesMeaning` | tools/roofline/src/ram_bench.cpp:130-133 | a reading gives the time that the last tick before it set |
| `SweepProtocol.WorkerTimerValid` | tools/roofline/src/ram_bench.cpp:40-78 | under every schedule the clock readings of a finished worker are those of the kernels' do-while loop, with one stop test per pass and the last the first to see the time up |
| `SweepProtocol.SlotIsKernelResult` | tools/roofline/src/ram_bench.cpp:113-126 | in every completed run slot i holds rounds times bytes modulo 2^64 for the rounds of worker i's own timed loop |
| `SweepProtocol.NoDeadlock` | tools/roofline/src/ram_bench.cpp:106-132 | until main is done some step other than spinning and waiting is enabled |
| `SweepProtocol.EveryRunCanFinish` | tools/roofline/src/ram_bench.cpp:106-133 | every run, wherever it has got to, can be continued until main is done |
| `SweepRates.TotalIsAllWork` | tools/roofline/src/ram_bench.cpp:135-136 | whatever the schedule, the joined total is the sum of passes_i * bytes_i modulo 2^64 |
| `SweepRates.WallRateMeaning` | tools/roofline/src/ram_bench.cpp:130-138 | a completed run reports the bytes of all workers, modulo 2^64, over the time between main's two clock readings, and 0 when no time passed |
| `SweepRates.OwnRatesMeaning` | tools/roofline/src/ram_bench.cpp:111-126 | a worker's own rate is its passes times its bytes over its own interval |
| `SweepRates.AggregateIsNoOverclaim` | tools/roofline/src/ram_bench.cpp:130-138 | the reported rate is at most the sum of each worker's own bytes over its own elapsed time whenever these rates account for all work, and always with a duration above 0 |
| `SweepRates.NoOverclaimIff` | tools/roofline/src/ram_bench.cpp:98-138 | this holds under every schedule exactly when the duration is above 0 or one pass over all buffers adds up to 0 bytes modulo 2^64 |
| `SweepRates.LateRunOverclaims` | tools/roofline/src/ram_bench.cpp:98-138 | with a duration of 0 there is a run that claims more: all workers start and end in one nanosecond, after main's first reading |
| `JsonWriter.Stream.constructor` | tools/roofline/src/util.hpp:23 | a writer starts with no open container and no pending key |
| `JsonWriter.Stream.WriteCommaIfNeeded` | tools/roofline/src/util.hpp:109-114 | comma only behind a sibling, and the flag of the open container is set |
| `JsonWriter.Stream.WriteBeforeValue` | tools/roofline/src/util.hpp:118-124 | a pending key is used up instead of a comma |
| `JsonWriter.Stream.WriteBeginObject` | tools/roofline/src/util.hpp:25-29 | new state, and agreement with the document is kept |
| `JsonWriter.Stream.WriteEndObject` | tools/roofline/src/util.hpp:30-33 | new state, and agreement with the document is kept; popping an empty stack is undefined |
| `JsonWriter.Stream.WriteBeginArray` | tools/roofline/src/util.hpp:34-38 | new state, and agreement with the document is kept |
| `JsonWriter.Stream.WriteEndArray` | tools/roofline/src/util.hpp:39-42 | new state, and agreement with the document is kept |
| `JsonWriter.Stream.WriteKey` | tools/roofline/src/util.hpp:44-49 | new state, and agreement with the document is kept |
| `JsonWriter.Stream.WriteValue` | tools/roofline/src/util.hpp:51-80 | new state for every kind of scalar, and agreement with the document is kept |
| `JsonWriter.Stream.WriteKv` | tools/roofline/src/util.hpp:82-106 | a key followed by its value |
| `JsonWriter.Stream.EscapeText` | tools/roofline/src/util.hpp:125-133 | the loop puts a backslash before each quote and backslash, and nothing else |
| `Json.EscapeMeaning` | tools/roofline/src/util.hpp:125-133 | a quote or a backslash gets one backslash, and text without them is unchanged |
| `JsonCompact.PrintIsCompact` | tools/roofline/src/util.hpp:25-80 | no white space is printed between tokens |
| `JsonWriter.StepAgrees` | tools/roofline/src/util.hpp:25-80 | each legal call keeps the writer's text, flags and key marker those of the document being built |
| `JsonWriter.CompleteTracePrintsTree` | tools/roofline/src/util.hpp:25-80 | a legal complete trace leaves exactly the compact printing of one tree, an empty stack and no pending key |
| `JsonProtocol.CompleteTraceIff` | tools/roofline/src/util.hpp:19-20 | a call sequence is a legal complete document for a tree exactly when it is that tree's own call sequence |
| `JsonParser.ParseEscaped` | tools/roofline/src/util.hpp:125-133 | an escaped string parses back to itself exactly when it holds no control character (section 7 of RFC 8259) |
| `JsonParser.RoundTripIff` | tools/roofline/src/util.hpp:25-80 | a printed tree parses back to itself exactly when no string or key in it holds a control character |
| `JsonParser.PrintInjective` | tools/roofline/src/util.hpp:25-80 | two different such trees never print alike |
| `JsonParser.IntTextIsNumber` | tools/roofline/src/util.hpp:64-72 | printed integers are number tokens of section 6 of RFC 8259 |
| `Numerals.IntTextDenotes` | tools/roofline/src/util.hpp:64-72 | the text of an integer is a decimal numeral of that integer |
| `Report.WriteCpu` | tools/roofline/src/report.cpp:12-27 | delivers the cpu object |
| `Report.WriteScaling` | tools/roofline/src/report.cpp:37-48 | delivers one array element for each point, in order |
| `Report.WriteRam` | tools/roofline/src/report.cpp:29-53 | delivers the ram object with its three arrays |
| `Report.WriteLatency` | tools/roofline/src/report.cpp:55-72 | delivers the latency object with its array |
| `Report.WriteDisk` | tools/roofline/src/report.cpp:74-85 | delivers the disk object, with a note only if there is one |
| `Report.WriteCompute` | tools/roofline/src/report.cpp:87-94 | delivers the compute object |
| `Report.WriteHugepage` | tools/roofline/src/report.cpp:96-109 | delivers the hugepage object, with a note only if there is one |
| `Report.WriteJson` | tools/roofline/src/report.cpp:113-148 | the stream receives the printing of the report's tree and a newline, for any subset of sections and any array lengths |
| `ReportReader.SectionsInOrder` | tools/roofline/src/report.cpp:115-146 | the keys of the report are those of the sections that ran, always in the same order |
| `ReportReader.ReportUnique` | tools/roofline/src/report.cpp:12-148 | no key occurs twice in any object of the report |
| `ReportReader.ParsedKeys` | tools/roofline/src/report.cpp:113-148 | any tree a reader parses from the file has the keys of the sections that ran, in that order, and no key twice in any object |
| `ReportFields.ArraysMatchVectors` | tools/roofline/src/report.cpp:29-72 | in any tree a reader parses from the file, ram and latency are there exactly when they ran, and looking up each of their four arrays by key gives one object for each point, in order, with the point's figures |
| `ReportFields.NotesRead` | tools/roofline/src/report.cpp:74-109 | in any parsed tree the disk and hugepage sections are there exactly when they ran, and their note is the given text, missing exactly when that is empty |
| `ReportFields.HeadRead` | tools/roofline/src/report.cpp:12-27 | in any parsed tree the time stamp and every text, number and flag of the cpu object are found under their own keys |
| `ReportFields.MemoryFiguresRead` | tools/roofline/src/report.cpp:29-72 | and so are the single figures of the ram and latency sections |
| `ReportFields.OtherFiguresRead` | tools/roofline/src/report.cpp:74-109 | and those of the disk, compute and hugepage sections; NaN and the infinities read as null |
| `ReportReader.DiskNoteIff` | tools/roofline/src/report.cpp:79 | the disk section has a note exactly when it is not empty |
| `ReportReader.HugepageNoteIff` | tools/roofline/src/report.cpp:99 | the hugepage section has a note exactly when it is not empty |
| `ReportReader.ReportRoundTripIff` | tools/roofline/src/report.cpp:113-148 | the file parses to the report's own tree exactly when model name, path, notes and time stamp hold no control character |
| `Smaps.ParseHeader` | tools/roofline/src/hugepage_bench.cpp:61-72 | the checks and reads of one line, in order |
| `Smaps.HeaderIff` | tools/roofline/src/hugepage_bench.cpp:61-72 | a line is a header exactly when hex digits alone stand before a dash and a space follows behind it; the two numbers are read from there |
| `Smaps.ReadDigits` | tools/roofline/src/hugepage_bench.cpp:69-70 | a number is read behind any white space and up to the first character that is no digit, and too large a one as 2^64 - 1 |
| `Smaps.ReadSigned` | tools/roofline/src/hugepage_bench.cpp:69-70 | a plus in front of a number changes nothing, a minus negates it modulo 2^64 |
| `Smaps.ReadPrefixed` | tools/roofline/src/hugepage_bench.cpp:69-70 | a 0x in front of hexadecimal digits is skipped |
| `Smaps.ReadNothing` | tools/roofline/src/hugepage_bench.cpp:92-94 | a text without a number in front reads as 0 |
| `Numerals.DigitTable` | tools/roofline/src/hugepage_bench.cpp:64-66 | the hexadecimal digits in both cases have the values 0 to 15 |
| `Numerals.OnlyDigits` | tools/roofline/src/hugepage_bench.cpp:64-66 | no other character is one |
| `Smaps.HeaderRecovered` | tools/roofline/src/hugepage_bench.cpp:61-72 | every printed header, each address with any number of leading zeros, gives back its two 64-bit addresses |
| `Smaps.FieldIsNoHeader` | tools/roofline/src/hugepage_bench.cpp:61-68 | no field line passes for a header |
| `Smaps.ConfirmedHugepageBytes` | tools/roofline/src/hugepage_bench.cpp:78-98 | the one-pass loop with its flag computes the scan of the classified lines; an unreadable file gives 0 |
| `Smaps.ScanIsRangeSum` | tools/roofline/src/hugepage_bench.cpp:74-98 | on any printed list of mappings the scan is 1024 times the AnonHugePages of those starting in the range, modulo 2^64 |
| `Smaps.HugepageConfirmed` | tools/roofline/src/hugepage_bench.cpp:137-139 | so on a printed file the call for a mapping gives that sum for it, and it counts as confirmed when the sum is not 0; on mappings of one address space the sum is exact and the answer right |
| `Smaps.ConfirmedIff` | tools/roofline/src/hugepage_bench.cpp:74-77 | a non-zero result means huge pages in the range and 0 means none, exactly unless the sum is a positive multiple of 2^54 kB |
| `Smaps.WrappedSumReadsAsNone` | tools/roofline/src/hugepage_bench.cpp:94 | a single mapping with 2^54 kB in huge pages reads as none |
| `Smaps.AddressSpaceSum` | tools/roofline/src/hugepage_bench.cpp:78-98 | for mappings that do not overlap, lie below 2^64 and hold no more huge-page bytes than addresses the sum never wraps |
| `Smaps.AddressSpaceAnswer` | tools/roofline/src/hugepage_bench.cpp:74-77 | so there a non-zero result means huge pages in the range, and 0 means none, without exception |
| `Rounding.RoundUpIff` | tools/roofline/src/disk_bench.cpp:30 | the result is the least multiple at or above v exactly when v + mult - 1 does not wrap; otherwise it is 0 |
| `Rounding.LeastMultipleUnique` | tools/roofline/src/disk_bench.cpp:30 | that determines the result |
| `Rounding.HugepageNodeCount` | tools/roofline/src/hugepage_bench.cpp:104-106 | the nodes fill the mapping, and there is at least one exactly when the footprint is above 0 and rounding it does not wrap |
| `Disk.CreateFile` | tools/roofline/src/disk_bench.cpp:44-49 | the loop writes what the given write results add up to until the size is reached or a write fails |
| `Disk.WrittenMeaning` | tools/roofline/src/disk_bench.cpp:44-49 | the file holds the successful writes up to the first failure or up to the one that brings it to the size |
| `Disk.CreatedExactlyIff` | tools/roofline/src/disk_bench.cpp:32-52 | the new file has the wanted size exactly when some run of successful writes adds up to it |
| `Disk.ShortWriteOvershoots` | tools/roofline/src/disk_bench.cpp:45-49 | a write of 1 byte followed by a full one makes a file of one chunk a byte too long |
| `Disk.FullWritesExactIff` | tools/roofline/src/disk_bench.cpp:45-49 | with enough full writes the size is met exactly if and only if it is a whole number of chunks |
| `Disk.ShortWritesEndNearSize` | tools/roofline/src/disk_bench.cpp:45-49 | with enough writes of 1 byte up to a chunk the file ends in [size, size + chunk) |
| `Disk.OvershootBelowChunk` | tools/roofline/src/disk_bench.cpp:45-49 | whatever else the writes do, failing ones included, the file stays below size + chunk |
| `Disk.RoundedSizeIsCreated` | tools/roofline/src/disk_bench.cpp:137-142 | with full writes the file gets exactly the rounded size that is checked for later |
| `Disk.MeasureSequential` | tools/roofline/src/disk_bench.cpp:76-91 | the rate is the sum of the successful reads, modulo 2^64, over the time from before the loop to the reading after it; each read is made at its modelled offset; with at least one chunk in the file none asks for bytes past its end |
| `Disk.DeliveredPositive` | tools/roofline/src/disk_bench.cpp:80-83 | the sum leaves out exactly a failed last read, so every length in it is above 0 |
| `Disk.NextRead` | tools/roofline/src/disk_bench.cpp:79-87 | each read starts where the one before it ended, or at 0 when a whole chunk no longer fits there |
| `Disk.FullReadsCycle` | tools/roofline/src/disk_bench.cpp:79-87 | full reads of an m-chunk file take chunk k mod m at the k-th read |
| `Disk.ChunksReadEvenly` | tools/roofline/src/disk_bench.cpp:79-87 | the read counts of any two chunks never differ by more than one |
| `Compute.DpbusdAddsDot` | tools/roofline/src/compute_bench.cpp:80 | one instruction adds the 64-byte dot product to its lanes modulo 2^32 |
| `Compute.Pass` | tools/roofline/src/compute_bench.cpp:76-82 | one pass uses each byte pair exactly once: the eight accumulators grow by the whole dot product modulo 2^32 |
| `Compute.MeasureInt8Vnni` | tools/roofline/src/compute_bench.cpp:69-101 | after any number of passes the lanes sum to passes times the dot product modulo 2^32, and the claimed operations are two for each byte pair |

## Left out

- Real time, memory mapping, `madvise`, file access, O_DIRECT probing and CPU detection: foreign calls, represented by their results only.
- The random generator and its distribution: every in-range choice is covered instead.
- Durations are taken in nanoseconds; the conversion from the milliseconds of the options is not modelled.
- Floating-point rounding: rates are computed on reals, and a printed double is an opaque number token.
- Weak memory ordering: the protocol's steps are atomic and sequentially consistent; the acquire/release pair on `go` and the joins are what the code relies on for that.
- Allocation failure: `aligned_alloc` returning null is not checked for in the chase and RAM benches; the disk bench then writes nothing and reports a rate of 0. Neither is modelled.
- The order in which a buffer's bytes reach memory in the non-temporal kernel: only its final contents are stated.
- Disk.MeasureSequential: file offsets are unbounded, where the code's fit a signed 64-bit `off_t`.
- SweepProtocol.EveryRunCanFinish: says that a completing continuation exists; that a scheduler takes it is fairness, which the operating system decides.
- JsonParser.RoundTripIff: takes number tokens to be well formed; the parser does not combine surrogate pairs of `\u` escapes, which the writer never prints.
- `measure_fp32_fma`: the same eight-accumulator loop as the INT8 bench, on reals without wrap-around.
- `measure_sequential_bandwidth` and `measure_random4k`: loops whose bounds are immediate.
- `write_human`, `write_guidance`, option parsing and usage texts: user interface.
- NUL bytes in smaps lines, which would end the text `strtoull` sees.
