# A verified model of the fuzzer's core

This project models the parts of the fuzzer whose correctness the rest relies on, one module per file:

- `Instrument`, `Semantics`, `WriteOnlyLog`, `Simulation`, `Preservation`: the source-to-source pass that inserts coverage directives,
  as a transformation of syntax trees with a fuelled semantics for both sides. Two logs are kept: what really happens,
  recorded by the semantics, and what the directives emit.
- `Pipeline`, `ProcessTable`: one generation after another of launching processes, watching them and retrieving
  traces, as an interleaving of four threads whose steps are single accesses to shared state; and the process table
  itself, as a class.
- `Murmur3`, `Murmur3Values`, `Uint128`, `Words`: the hash and the 128-bit number it is kept in, over machine words with explicit
  wrap-around. Bitwise or and exclusive or are recursive functions on numbers.
- `Store`, `Knowledge`, `LruCache`, `Coverage`, `BlindPairing`: the element store, the caches in front of it, the
  coverage graph and the scores.
- `Memory`, `Handles`, `Evolution`, `Mutations`: slots with reference counts, the individuals that hold them, who is
  alive while a population evolves, and the mutators.
- `Measure`, `BestSet`: the order on scores and the bounded set of best individuals.

A file with state is a class whose methods are proved against functions on plain values; the whole-run results are
lemmas about those functions. `Prelude` holds Option, Result and a fact about subsets.

Where the code and what is said about it differ, the model follows the code:

- The header of the best set promises at most `max_size` entries. The code stores one more when it is first full,
  and without bound for scores above the sentinel (`BestSet.GrowsExactly`, `SizeBound`, `BoundIsTight`,
  `HoldsAnyNumber`).
- The fitness strategy hands the edge score to the goal parameter and vice versa (`Measure.EdgesOutweighGoals`).
- The tests of the memory manager expect the first slot to be 0 and a null buffer for size 0; the code starts at 1
  and allocates one byte.
- `return g();` in a void function is a legal statement. Its meaning is kept, every bracket of its trace closes and
  every event is emitted as often as it happened (`Preservation.TraceBrackets`), but the inserted exit event comes before
  the call: the events are in the order of the history exactly when the expression emits nothing
  (`Preservation.VoidReturnInOrderExactly`, `VoidReturnOfCallLosesOrder`).
- The flag "all testcases sent" does not mean that they were (`Pipeline.SentFlagIsNoBarrier`); it does exactly when the
  monitor was not already about to set it (`Pipeline.SentFlagSoundExactly`). The counter of processed testcases is a
  barrier, and a generation that is under way can still end exactly when no trace was dropped and there is room for a
  process or none left to start (`Pipeline.GenerationCanEndExactly`).

## Model

| member | source | states |
|---|---|---|
| `Preservation.MeaningPreserved` | fuzzer/clang-instrument/instrument.cpp:43-132 | For everything C accepts of the modelled statements (void returns of expressions included), any set of instrumented functions, host semantics, input and fuel: the instrumented program ends exactly when the source program does, with the same value, user state and history of calls, returns and entered bodies (so each return expression is evaluated once). |
| `Preservation.TraceBrackets` | fuzzer/clang-instrument/instrument.cpp:174-187 | For everything C accepts, any set of instrumented functions, input and fuel, finished or cut off: every event of the trace nests, and each predecessor is the previous current block of its activation, starting at 0. A finished run leaves every bracket closed, and its events are exactly those of the history of the instrumented functions, each as often: one enter and one exit per activation, one event per entered body. |
| `Preservation.TraceExact` | fuzzer/clang-instrument/instrument.cpp:174-187 | The order: if no instrumented void function returns an expression that calls a function from which an instrumented one can be reached, a finished run's trace without predecessors is the source history restricted to the instrumented functions; a cut-off run's is too, or is one exit ahead. |
| `Preservation.TraceOfEverything` | fuzzer/clang-instrument/instrument.cpp:242-273 | With every function instrumented and no void return of a call, the trace is the whole source history in its order, finished or cut off. |
| `Preservation.VoidReturnInOrderExactly` | fuzzer/clang-instrument/instrument.cpp:500-503 | A void function's `return e;` keeps the trace in the order of the history if and only if evaluating e emits no event. |
| `Preservation.VoidReturnOfCallLosesOrder` | fuzzer/clang-instrument/instrument.cpp:500-503 | The smallest program whose order is lost: in `void f() { return g(x); }` the caller's exit precedes the callee's enter, while every bracket still closes. |
| `Simulation.ExitBeforeValue` | fuzzer/clang-instrument/instrument.cpp:500-503 | The rewritten void return evaluates e behind the exit to the same value and state, emitting the same events as in front of it. |
| `WriteOnlyLog.BlindE` | fuzzer/clang-instrument/instrument.cpp:174-187 | The log is write-only: states that differ in the log only evaluate alike and append the same events. |
| `Simulation.SimS` | fuzzer/clang-instrument/instrument.cpp:43-148 | Simulation of an instrumented function, statement by statement: braces, block directives and rewritten returns keep outcome, user state and history, and extend the trace so that it still nests and chains and tells what was executed: as a whole, or event by event, as far as the setup claims. |
| `Simulation.PlainS` | fuzzer/clang-instrument/instrument.cpp:242-260 | Simulation of a function that the pass leaves alone but whose calls may reach instrumented ones; if they cannot, nothing is emitted. |
| `Simulation.SimSwitch` | fuzzer/clang-instrument/instrument.cpp:91-114 | Jumps, fall-through, default and labels of a switch reach the same statements after the directives are inserted behind the labels. |
| `Simulation.HitsKept` | fuzzer/clang-instrument/instrument.cpp:95-114 | Splitting a labelled statement into label, directive and statement moves no jump target. |
| `Simulation.SimReturn` | fuzzer/clang-instrument/instrument.cpp:490-537 | A rewritten return leaves with the same value, the expression evaluated once; with a return type the exit comes behind it, without one in front. |
| `Simulation.SimChosen` | fuzzer/clang-instrument/instrument.cpp:415-482 | Prologue and epilogue give each activation its own predecessor 0, exactly one enter and exactly one exit, around the traces of the calls it makes. |
| `Simulation.NeverFallsOff` | fuzzer/clang-instrument/instrument.cpp:475-482 | A body whose last statement is a return never needs the omitted epilogue exit. |
| `Semantics.DoWhileIsRoundThenWhile` | fuzzer/clang-instrument/instrument.cpp:71-75 | The semantics both sides run on: `do b while (t)` is one round of b and then `while (t) b`. |
| `Semantics.ForIsWhile` | fuzzer/clang-instrument/instrument.cpp:56-60 | `for (i; t; e) b` is `{ i; while (t) { b e; } }`, for every b that does not continue. |
| `Semantics.SwitchChooses` | fuzzer/clang-instrument/instrument.cpp:91-103 | A switch runs its matching case and falls through to what follows, or its default alone; a break leaves it and no more. |
| `Semantics.ConditionsAgree` | fuzzer/clang-instrument/instrument.cpp:76-90 | A condition chooses the same branch as an operator and as a statement. |
| `Semantics.OperandsInOrder` | fuzzer/clang-instrument/instrument.cpp:174-187 | Arguments are evaluated before their call and operands from left to right: the history shows it. |
| `Murmur3.MurmurHash3_x64_128` | fuzzer/fuzzer/murmur3.cpp:304-410 | The block loop, fall-through tail and finalisation compute the hash function that the other lemmas are about, for every length below 2^31 and every seed. |
| `Murmur3.MixTail` | fuzzer/fuzzer/murmur3.cpp:346-391 | The two halves of the tail switch mix exactly the lanes of the tail bytes: high half only from 9 bytes, low half only from 1. |
| `Murmur3.TailHigh` | fuzzer/fuzzer/murmur3.cpp:351-365 | Cases 15 to 9 assemble the little-endian number of bytes 8 and up. |
| `Murmur3.TailLow` | fuzzer/fuzzer/murmur3.cpp:371-386 | Cases 8 to 1 assemble the little-endian number of the first eight bytes. |
| `Murmur3.GetBlock` | fuzzer/fuzzer/murmur3.cpp:57 | A block read is the little-endian number of eight bytes. |
| `Murmur3.MulInjective` | fuzzer/fuzzer/murmur3.cpp:324-326 | Multiplying by a constant that has an inverse mod 2^64 loses nothing. |
| `Murmur3.RotlInjective` | fuzzer/fuzzer/murmur3.cpp:40-45 | Rotation loses nothing. |
| `Murmur3.XorshiftInjective` | fuzzer/fuzzer/murmur3.cpp:75-79 | x ^= x >> k loses nothing for k from 32 to 63. |
| `Murmur3.FmixInjective` | fuzzer/fuzzer/murmur3.cpp:74-82 | Two words have the same final mix exactly when they are equal. |
| `Murmur3.RoundInjective` | fuzzer/fuzzer/murmur3.cpp:320-341 | One round on equal lanes separates different blocks, and on equal blocks separates different lanes. |
| `Murmur3.TailBytes` | fuzzer/fuzzer/murmur3.cpp:346-391 | Different tails of the same length leave different lanes. |
| `Murmur3.FinishInjective` | fuzzer/fuzzer/murmur3.cpp:396-409 | Finalisation separates different lanes of buffers of one length. |
| `Murmur3.NoCollision` | fuzzer/fuzzer/murmur3.cpp:304-410 | Buffers of one length, any length, that differ at most inside one aligned 16-byte window (a full block or the tail) have equal hashes exactly when they are equal. |
| `Murmur3.FinishSeparatesLengths` | fuzzer/fuzzer/murmur3.cpp:396-409 | Finalisation separates different lengths on equal lanes. |
| `Murmur3.TrailingZerosCount` | fuzzer/fuzzer/murmur3.cpp:304-410 | For every length and seed, buffers that differ only in how many zero bytes end the last window have equal hashes exactly when the numbers are equal. |
| `Murmur3.SeedCounts` | fuzzer/fuzzer/murmur3.cpp:304-410 | Two seeds give a buffer the same hash exactly when they are equal. |
| `Murmur3Values.MixValues` | fuzzer/fuzzer/murmur3.cpp:324-341 | Reference values of the two mixes: the multipliers, their order and the rotations. |
| `Murmur3Values.RoundValues` | fuzzer/fuzzer/murmur3.cpp:324-341 | Reference values of a round in each of its four inputs: rotations, constants, and the first lane entering the second. |
| `Murmur3Values.BlockValues` | fuzzer/fuzzer/murmur3.cpp:320-322 | Bytes 0 to 7 of a block go into the first lane and 8 to 15 into the second, the first byte lowest. |
| `Murmur3Values.TailValues` | fuzzer/fuzzer/murmur3.cpp:346-391 | The first tail byte is mixed into the first lane, the ninth into the second. |
| `Murmur3Values.FmixValue` | fuzzer/fuzzer/murmur3.cpp:74-82 | A reference value of the final mix that all three xorshifts and both multipliers enter. |
| `Murmur3Values.FinishValue` | fuzzer/fuzzer/murmur3.cpp:396-409 | A reference value of the finalisation that depends on the order of its last additions and of the two lanes. |
| `Uint128.PlusIsAddition` | fuzzer/fuzzer/uint128_t.cpp:159-162 | Addition of the value mod 2^128. |
| `Uint128.MinusIsSubtraction` | fuzzer/fuzzer/uint128_t.cpp:170-173 | Subtraction of the value mod 2^128. |
| `Uint128.ComparesAsValue` | fuzzer/fuzzer/uint128_t.cpp:129-157 | The comparisons on halves are the comparisons of the values. |
| `Uint128.ShiftLeftMultiplies` | fuzzer/fuzzer/uint128_t.cpp:73-89 | For every shift, also beyond 127: multiplication by a power of two mod 2^128. |
| `Uint128.ShiftRightDivides` | fuzzer/fuzzer/uint128_t.cpp:91-107 | For every shift: division by a power of two. |
| `Uint128.LimbProducts` | fuzzer/fuzzer/uint128_t.cpp:180-192 | The sixteen 32-bit limb products, in the transposed layout of the source, none of which overflows. |
| `Uint128.SumRows` | fuzzer/fuzzer/uint128_t.cpp:194-214 | The four row sums never overflow 64 bits and recombine to the weighted sum of the limb products mod 2^128. |
| `Uint128.Multiply` | fuzzer/fuzzer/uint128_t.cpp:180-215 | The result is the integer product mod 2^128, for all operands. |
| `Uint128.Bits` | fuzzer/fuzzer/uint128_t.cpp:297-314 | The number of binary digits of the value. |
| `Uint128.OrIsAddition` | fuzzer/fuzzer/uint128_t.cpp:245 | A quotient whose bits above k are the only ones set meets 2^k without carry: `|=` adds. |
| `Uint128.Aligned` | fuzzer/fuzzer/uint128_t.cpp:236-241 | Shifting the divisor (and 1) up to the length of the dividend loses no bit, and the dividend is below twice the shifted divisor. |
| `Uint128.DivMod` | fuzzer/fuzzer/uint128_t.cpp:222-251 | Terminates; zero divisor is an error; otherwise lhs = q * rhs + r with r < rhs. |
| `Uint128.Divide` | fuzzer/fuzzer/uint128_t.cpp:253-255 | The integer quotient, or the error. |
| `Uint128.Modulo` | fuzzer/fuzzer/uint128_t.cpp:262-264 | lhs - rhs * (lhs / rhs) in wrapping arithmetic is the integer remainder, or the error. |
| `Uint128.QuotientAndRemainder` | fuzzer/fuzzer/uint128_t.cpp:222-264 | The contract of DivMod determines q and r: they are the integer quotient and remainder. |
| `Uint128.Str` | fuzzer/fuzzer/uint128_t.cpp:316-334 | Bases outside 2 to 16 are an error; otherwise the digits of the value, padded with zeros to the length asked for. |
| `Uint128.PrintedReadsBack` | fuzzer/fuzzer/uint128_t.cpp:316-334 | Reading the printed text in its base gives the value back, padded or not. |
| `Uint128.PrintingIsInjective` | fuzzer/fuzzer/uint128_t.cpp:316-334 | Two values print alike exactly when they are equal. |
| `Uint128.NoLeadingZero` | fuzzer/fuzzer/uint128_t.cpp:321-329 | Unpadded, only zero begins with the digit 0. |
| `Uint128.DigitsInOrder` | fuzzer/fuzzer/uint128_t.cpp:316-329 | The digits are 0 to 9 and a to f in the order of their characters, the most significant first. |
| `Pipeline.EachTestcaseInOnePlace` | fuzzer/fuzzer/handler.cpp:215-321 | In every interleaving of main loop, watcher, monitor and retriever, over any number of generations, a launched testcase is in exactly one place (main's hand, process table, monitor's hand, one of two queues, retriever's hand, counted, dropped) and no other is in any; the counter equals the number of counted testcases. |
| `Pipeline.EachPidInOneHand` | fuzzer/fuzzer/commander.cpp:165-241 | A mapped pid that is not yet queued is with exactly one of main, process table and monitor, and no other pid is with any. |
| `Pipeline.RoutedByStatus` | fuzzer/fuzzer/handler.cpp:233-255 | In every interleaving a testcase is in the timed-out queue, or in the retriever's hand from there, only if its process had timed out when the monitor found it finished, and on the way of a trace only if not; a counted testcase has had its trace added if and only if its process had not timed out. |
| `Pipeline.KnowledgeComplete` | fuzzer/fuzzer/handler.cpp:361-374 | Between generations the knowledge has taken in the traces of exactly the launched testcases that had not timed out. |
| `Pipeline.StatusIsLastGiven` | fuzzer/fuzzer/commander.cpp:187-193 | Over every run, as long as a pid stays tracked its status is the one the watcher gave it last. |
| `Pipeline.GenerationBarrier` | fuzzer/fuzzer/handler.cpp:361-434 | Whenever main evolves, resets scores or clears, the table, the queues and all hands are empty, everything launched was counted, nothing was dropped and no trace is being added. |
| `Pipeline.CounterIsExact` | fuzzer/fuzzer/handler.cpp:434 | Main can leave its last wait if and only if every launched testcase has been counted. |
| `Pipeline.ProgressUnlessDropped` | fuzzer/fuzzer/handler.cpp:215-321 | From every reachable state in the last wait some continuation of the other threads ends it if and only if no trace was dropped: there is no deadlock otherwise. |
| `Pipeline.GenerationCanEndExactly` | fuzzer/fuzzer/handler.cpp:361-434 | From every reachable state with a generation under way (launching, waiting for the flag, waiting for the counter): some continuation ends it, with every individual that is left actually started, if nothing was dropped and there is room for at least one process or none is left to start; otherwise no continuation ends it. |
| `Pipeline.NextGenerationStarts` | fuzzer/fuzzer/handler.cpp:361-374 | Between generations main waits for nobody: its own steps start a generation of any size. |
| `Pipeline.DroppedBlocksForever` | fuzzer/fuzzer/handler.cpp:295-321 | If a trace is missing or adding it throws, in whatever phase of a generation, that generation never ends, whatever the threads do next. |
| `Pipeline.SentFlagSoundExactly` | fuzzer/fuzzer/handler.cpp:416-421 | For every reachable state in which main has called all individuals: whenever it can then pass the sent flag everything has been queued, if and only if at the store of the received flag nothing is left to queue, or the sent flag is clear and the monitor is not between its look at the table and its store: it has seen the table empty, or then the first flag set, or then the second one clear. |
| `Pipeline.SentFlagIsNoBarrier` | fuzzer/fuzzer/handler.cpp:220-222 | A run in which that condition fails: the monitor finds the table empty before the launch and sets the sent flag after it, so main passes the flag with the process still running. |
| `Pipeline.TableBounded` | fuzzer/fuzzer/handler.cpp:380-383 | The process table never exceeds the configured number of processes and every tracked pid has a status, a timer and a testcase. |
| `Pipeline.NeverRunningAgain` | fuzzer/fuzzer/commander.cpp:119-141 | Over every run of all threads a final status never becomes running again as long as the pid stays tracked. |
| `Pipeline.QuietBetween` | fuzzer/fuzzer/handler.cpp:361-374 | The invariant on places and counters alone makes the state quiet between generations. |
| `Pipeline.InvStep` | fuzzer/fuzzer/handler.cpp:215-329 | Every enabled step of every thread keeps the invariant on pids, ids and counters. |
| `ProcessTable.ProcessStatuses.Insert` | fuzzer/fuzzer/commander.cpp:165-185 | An already tracked pid keeps its status; a timer starts only for a running process; the pid is listed. |
| `ProcessTable.ProcessStatuses.Update` | fuzzer/fuzzer/commander.cpp:187-193 | Only the status of a tracked pid changes. |
| `ProcessTable.ProcessStatuses.Remove` | fuzzer/fuzzer/commander.cpp:196-215 | A tracked pid leaves all three collections; an untracked one changes nothing. |
| `ProcessTable.ProcessStatuses.GetTerminatedProcesses` | fuzzer/fuzzer/commander.cpp:217-241 | Returns exactly the listed pids with a final status and removes exactly those. |
| `ProcessTable.ProcessStatuses.Clear` | fuzzer/fuzzer/commander.cpp:251-260 | No pid is listed afterwards and no listed pid keeps a status. |
| `ProcessTable.TerminatedSplitTheTable` | fuzzer/fuzzer/commander.cpp:217-241 | Each pid is either reported, once, with its final status, or still tracked and running; a second call reports nothing. |
| `ProcessTable.TableStaysConsistent` | fuzzer/fuzzer/commander.cpp:165-215 | Insertion and removal keep statuses, timers and the list of pids in agreement, and removal undoes the insertion of an untracked pid. |
| `ProcessTable.InsertIsThreeSteps` | fuzzer/fuzzer/commander.cpp:165-185 | Uninterrupted, the three accesses that the pipeline interleaves make one insertion. |
| `ProcessTable.RemoveIsThreeSteps` | fuzzer/fuzzer/commander.cpp:196-215 | Same for removal. |
| `Store.Builder.AddFunction` | fuzzer/clang-instrument/instrument.cpp:276-290 | A fresh function element without blocks; nothing stored before changes. |
| `Store.Builder.AddGoals` | fuzzer/clang-instrument/instrument.cpp:326-337 | One fresh summary element per goal, in order; nothing stored before changes. |
| `Store.Builder.AddBlock` | fuzzer/clang-instrument/instrument.cpp:313-359 | The new block is found by its function and CFG number, its goals are stored and listed in it, every other lookup is as before, and no element but that of the function changes. |
| `Store.Builder.AddBlocks` | fuzzer/clang-instrument/instrument.cpp:293-361 | After a function is stored, each of its CFG blocks looks up to the element created for it, which lists the stored goals of that block, and all other lookups and all elements but that of the function are unchanged. |
| `Store.FirstBlockAppend` | fuzzer/fuzzer/knowledge.cpp:121-133 | Appending a block to a function's list changes the scan only for its own number, and only if that was unknown. |
| `Knowledge.ProgramKnowledge.GetBlockElement` | fuzzer/fuzzer/knowledge.cpp:102-133 | For every store, capacity and query history the cached answer is the uncached scan, unknown functions and blocks included. |
| `Knowledge.ProgramKnowledge.Remember` | fuzzer/fuzzer/knowledge.cpp:115-132 | Only correct answers enter the cache, so it stays correct whatever is evicted. |
| `LruCache.Cache.Put` | fuzzer/fuzzer/lrucache.h:30-47 | The list and the map stay in agreement; the entry goes to the front, its old copy goes, and the last entry goes when there is no room. |
| `LruCache.Cache.CopyGet` | fuzzer/fuzzer/lrucache.h:61-71 | Returns the stored value and moves the entry to the front; absent keys are an error and change nothing. |
| `LruCache.Cache.Erase` | fuzzer/fuzzer/lrucache.h:32-36 | Unlinks a present key from list and map. |
| `LruCache.RecentMeaning` | fuzzer/fuzzer/lrucache.h:30-75 | The reference list holds each key ever used once, with its last value, ordered by last use. |
| `LruCache.HoldsMostRecent` | fuzzer/fuzzer/lrucache.h:30-75 | For every capacity and history the cache is the front of that list: exactly the most recently used keys. |
| `Coverage.Coverage.FindVertex` | fuzzer/fuzzer/knowledge.cpp:220-232 | The linear scan finds a vertex exactly when one has the label. |
| `Coverage.Coverage.AddVertex` | fuzzer/fuzzer/knowledge.cpp:234-252 | Through the cache or not, returns the one vertex with the label, adding it only if there was none; no label is given twice. |
| `Coverage.Coverage.ComputeGoalScore` | fuzzer/fuzzer/knowledge.cpp:290-329 | The weight of all goals of a block, and of those not covered before; all become covered. |
| `Coverage.Coverage.AddEdge` | fuzzer/fuzzer/knowledge.cpp:254-275 | An edge between labels is new exactly when its pair of labels is; new ones score 2/1, old ones 1/0, and the goals of the destination are scored. |
| `Coverage.Coverage.AddTrace` | fuzzer/fuzzer/knowledge.cpp:142-217 | Folding a trace in changes graph, reached functions, goals and both score maps exactly as the value-level function says; stored counters wrap at 2^32. |
| `Coverage.Coverage.ResetScores` | fuzzer/fuzzer/knowledge.cpp:408-412 | Scores go; graph, functions and goals stay. |
| `Coverage.EdgeByLabels` | fuzzer/fuzzer/knowledge.cpp:262-275 | Because labels are unique, vertex-pair edges and label-pair edges are the same thing. |
| `Coverage.GoalDiffIsNewWeight` | fuzzer/fuzzer/knowledge.cpp:309-327 | The diff of a goal score is the weight by which the covered goals grow. |
| `Coverage.ScoresConserved` | fuzzer/fuzzer/knowledge.cpp:142-217 | Over any run of traces: coverage diff awarded = new edges + new functions; each testcase's absolute minus diff = its scored elements; goal diff awarded = weight of newly covered goals. |
| `Coverage.DiffsAreFirsts` | fuzzer/fuzzer/knowledge.cpp:142-217 | Over any run the diff scores of each testcase are what it was the first to show: edges and functions that no earlier element had shown, and the weight of goals that no earlier element had covered. |
| `Coverage.EveryGoalScores` | fuzzer/fuzzer/knowledge.cpp:309-327 | A stored goal of a block always earns an absolute score, and a diff unless it was covered. |
| `Coverage.FinalSets` | fuzzer/fuzzer/knowledge.cpp:142-217 | The final edges, functions and goals are the initial ones plus those of the trace elements. |
| `Coverage.OrderIndependent` | fuzzer/fuzzer/knowledge.cpp:142-217 | The same elements in any order and multiplicity give the same final sets and the same total diffs. Each as often, they also give the same total absolute coverage and goal scores, each testcase the same absolute goal score, and each testcase the same coverage score beyond its diff. |
| `Coverage.ScoresEarned` | fuzzer/fuzzer/knowledge.cpp:142-217 | Over any run: absolute coverage awarded = diff awarded + number of scored elements; absolute goal score awarded, in all and per testcase, = weight of the goals of the blocks entered, covered before or not. |
| `Coverage.SumPermuted` | fuzzer/fuzzer/knowledge.cpp:142-217 | What a trace earns in sum does not depend on the order of its elements. |
| `BlindPairing.NoOverflow` | fuzzer/fuzzer/knowledge.cpp:92-99 | For function and block below 65536 the 32-bit computation is exact. |
| `BlindPairing.UnpairPair` | fuzzer/fuzzer/knowledge.cpp:92-99 | In range the pairing can be undone. |
| `BlindPairing.PairUnpair` | fuzzer/fuzzer/knowledge.cpp:92-99 | Every 32-bit number is the code of a pair in range. |
| `BlindPairing.Shells` | fuzzer/fuzzer/knowledge.cpp:98-99 | The codes in their order: the pairs whose larger number is m fill the numbers from m^2 to the next square, first by function, then by block. |
| `BlindPairing.IdentifiesExactlyInRange` | fuzzer/fuzzer/knowledge.cpp:94-99 | A 32-bit pair shares its code with no other pair in range if and only if it is itself in range: the logged limit is exact. |
| `Memory.MemoryManager.Create` | fuzzer/fuzzer/memory-manager.cpp:49-62 | A fresh number with count 1, at least one byte allocated, the length asked for; no other slot changes. |
| `Memory.MemoryManager.Dismiss` | fuzzer/fuzzer/memory-manager.cpp:64-86 | The slot leaves all three maps, no other changes. |
| `Memory.MemoryManager.Copy` | fuzzer/fuzzer/memory-manager.cpp:88-101 | Shallow: the same slot, counted up. Deep: a fresh slot with the same bytes. No slot: none. |
| `Memory.MemoryManager.RemoveBytes` | fuzzer/fuzzer/memory-manager.cpp:104-118 | The bytes in front of and behind the gap, joined; the byte behind the new end becomes 0. |
| `Memory.MemoryManager.InsertBytes` | fuzzer/fuzzer/memory-manager.cpp:120-139 | A gap opens at the position, or at the end when it lies past it; nothing else moves. |
| `Memory.MemoryManager.ResizeBuffer` | fuzzer/fuzzer/memory-manager.cpp:173-197 | The new buffer begins with the old bytes. |
| `Memory.MemoryManager.IncreaseCount` | fuzzer/fuzzer/memory-manager.cpp:150-157 | Counts up an existing slot only. |
| `Memory.MemoryManager.DecreaseCount` | fuzzer/fuzzer/memory-manager.cpp:159-170 | Counts down, and dismisses at the last count; slots that remain keep their bytes. |
| `Memory.MemoryManager.ForceClean` | fuzzer/fuzzer/memory-manager.cpp:199-210 | Leaves exactly the active ones of the existing slots, with their counts and bytes. |
| `Memory.GapOpens` | fuzzer/fuzzer/memory-manager.cpp:127-137 | memmove after a resize produces exactly the gap. |
| `Handles.LiveHandlesAreSafe` | fuzzer/fuzzer/evolution.cpp:60-94 | After any sequence of create, set, copy, assign, clone, destroy, and of clean-ups that the condition of CleanIsSafeExactly allows, the slot of a live handle exists and its count is at least its number of handles. That every clean-up of the fuzzer is such a one is what Evolution derives. |
| `Handles.NeverReused` | fuzzer/fuzzer/memory-manager.cpp:49-52 | A slot number that was used and dismissed never exists again. |
| `Handles.CleanLeavesExactlyTheActive` | fuzzer/fuzzer/evolution.cpp:576-581 | After any clean-up the slots are exactly those of the handles it is given. |
| `Handles.CleanIsSafeExactly` | fuzzer/fuzzer/evolution.cpp:669-684 | A clean-up keeps all live handles safe if and only if each shares its slot with a kept one (or has none). |
| `Handles.ExcessExactly` | fuzzer/fuzzer/evolution.cpp:60-94 | The account of over-counting: between clean-ups a slot's excess over its handles grows by one exactly when `set` or assignment overwrites a handle on it or a deep clone is made of one, and changes with no other operation. |
| `Handles.OverCountedSlotsStay` | fuzzer/fuzzer/evolution.cpp:60-94 | Between clean-ups an over-counted slot is never given back; its excess grows by the number of leaks. |
| `Handles.LastHandleFreesExactly` | fuzzer/fuzzer/evolution.cpp:65 | Destroying the last handle frees the slot if and only if it was not over-counted. |
| `Handles.AssignmentLeaks` | fuzzer/fuzzer/evolution.cpp:67-76 | Assigning to the only handle of a slot leaves the slot counted with no handle. |
| `Handles.CloneOverCounts` | fuzzer/fuzzer/evolution.cpp:78-88 | A deep clone over-counts the slot it copies by one. |
| `Handles.Individuals.Set` | fuzzer/fuzzer/evolution.cpp:90-94 | A fresh slot with exactly the data; everyone else keeps slot, id and bytes. |
| `Handles.Individuals.CopyFrom` | fuzzer/fuzzer/evolution.cpp:60-63 | Shares slot and id; counts up. |
| `Handles.Individuals.Assign` | fuzzer/fuzzer/evolution.cpp:67-76 | Takes over slot and id and counts up, unless it is a self-assignment; the old slot is not counted down. |
| `Handles.Individuals.Clone` | fuzzer/fuzzer/evolution.cpp:78-88 | Keeping the id shares the slot; otherwise a fresh slot with the same bytes and id 0; everyone else is as before. |
| `Handles.Individuals.Destroy` | fuzzer/fuzzer/evolution.cpp:65 | Counts down; everyone else keeps their bytes. |
| `Handles.Individuals.ForceClean` | fuzzer/fuzzer/evolution.cpp:576-581 | Every live individual keeps its bytes through a clean-up. |
| `Handles.CloneIsCopyAndDetach` | fuzzer/fuzzer/evolution.cpp:78-88 | The copy and the slot replacement inside clone add up to one step of the whole-run model. |
| `Evolution.Population.Generations` | fuzzer/fuzzer/evolution.cpp:456-582 | Over any number of generations, whatever the random generator and the scores decide: every clean-up finds what it demands, so each live individual's slot exists and is counted at least once per individual on it; every seed keeps its slot; the individuals are on slots created meanwhile, no two on one, and not fewer than the least size if they were not; no slots are left but those of the population. |
| `Evolution.Population.Evolve` | fuzzer/fuzzer/evolution.cpp:456-582 | One generation, from registering the best to the clean-up and the end of the offspring: the best are the old ones and the old individuals as their fates say, every individual is new, on a slot of its own created in this generation, not fewer than the least size, exactly as many as before after a perturbation; alive are the individuals of the four vectors and no others, and the slots are exactly those of the population. |
| `Evolution.Population.ForceClean` | fuzzer/fuzzer/evolution.cpp:576-581 | The clean-up is allowed while the offspring are alive, because each shares its slot with the individual assigned from it, and the seed handler's with the seeds. |
| `Evolution.SharersMayLive` | fuzzer/fuzzer/evolution.cpp:669-684 | If alive are the population, the seed handler's seeds and locals that share the slots of the individuals, then keeping the slots of seeds, individuals and best is allowed and keeps every slot that is in use. |
| `Evolution.Population.GlobalPerturbation` | fuzzer/fuzzer/evolution.cpp:686-723 | Offspring of the best, of the seeds and of crossed members replace the individuals, as many as there were, each on a new slot; parents and offspring are gone afterwards. |
| `Evolution.Population.Starters` | fuzzer/fuzzer/evolution.cpp:686-701 | The parents are half as many of the best as the population has, best first, and as many seeds in their order. |
| `Evolution.Population.Reproduce` | fuzzer/fuzzer/evolution.cpp:498-574 | The next population is all new, each on a slot of its own, and reaches the least size by reinjection if the old one had it. |
| `Evolution.Population.Replace` | fuzzer/fuzzer/evolution.cpp:576-577 | Whether the vector moves, is cut or extended: the individuals take over the slots of the offspring in their order, and nobody else changes. |
| `Evolution.Population.Breed` | fuzzer/fuzzer/evolution.cpp:611-634 | Cloned, or mutated in any number of tries: one more individual in the vector, and nobody else changes. |
| `Evolution.Population.Offer` | fuzzer/fuzzer/evolution.cpp:222-270 | The set refuses the individual, places it, or places it and evicts another: the slots of the best change by exactly that, the temporaries are gone, and alive are the four vectors. |
| `Evolution.Population.Register` | fuzzer/fuzzer/evolution.cpp:477-485 | Each individual is offered, in order. |
| `Evolution.Population.AddSeed` | fuzzer/fuzzer/seeds.cpp:20-40 | A seed joins the handler's vector with a slot of its own; a line that gives none leaves nothing behind. |
| `Evolution.Population.Populate` | fuzzer/fuzzer/handler.cpp:582-590 | The population's seeds and first individuals share the slots of the handler's seeds, in order. |
| `Evolution.AllowedMore` | fuzzer/fuzzer/evolution.cpp:60-94 | A run extended by an operation that is allowed where it ends is an allowed run. |
| `Mutations.FlipBit` | fuzzer/fuzzer/mutations.cpp:21-32 | The mutant is the parent with one byte flipped in one bit; parent and everyone else unchanged. |
| `Mutations.FlipsExactlyOneBit` | fuzzer/fuzzer/mutations.cpp:28-30 | The masked update changes that bit and no other, and is its own inverse. |
| `Mutations.InsertByte` | fuzzer/fuzzer/mutations.cpp:35-47 | The parent with one byte put in at the position. |
| `Mutations.EraseByte` | fuzzer/fuzzer/mutations.cpp:50-64 | The parent without one byte; inputs shorter than two bytes are only cloned. |
| `Mutations.ChangeByte` | fuzzer/fuzzer/mutations.cpp:67-76 | The parent with one byte replaced. |
| `Mutations.SwapByte` | fuzzer/fuzzer/mutations.cpp:79-96 | The parent with two bytes exchanged; inputs shorter than two bytes are only cloned. |
| `Mutations.DuplicateByte` | fuzzer/fuzzer/mutations.cpp:118-134 | The byte at the position mul + 1 times in its place; an empty input becomes mul equal bytes. |
| `Mutations.CopySegment` | fuzzer/fuzzer/mutations.cpp:163-165 | The inner loop appends one copy of the segment and disturbs nothing around it. |
| `Mutations.DuplicateBytes` | fuzzer/fuzzer/mutations.cpp:139-168 | Prefix, mul + 1 copies of the segment, suffix; a range not shorter than the input only clones. |
| `Mutations.RepeatedRestores` | fuzzer/fuzzer/mutations.cpp:156-166 | What is inserted behind the segment is exactly the extra copies: taking them out gives the input back. |
| `Mutations.RemoveUndoesInsert` | fuzzer/fuzzer/memory-manager.cpp:104-139 | remove_bytes takes back what insert_bytes opened, whatever was written into the gap. |
| `Mutations.EraseUndoesInsert` | fuzzer/fuzzer/mutations.cpp:35-64 | Erasing at the position of an insertion gives the input back. |
| `Mutations.EditsByPosition` | fuzzer/fuzzer/mutations.cpp:35-96 | Insertion, erasure and exchange, position by position. |
| `Mutations.CopyOfSegment` | fuzzer/fuzzer/mutations.cpp:156-166 | Each inserted copy holds the bytes of the segment in their order. |
| `Mutations.SwapIsItsOwnInverse` | fuzzer/fuzzer/mutations.cpp:79-96 | Swapping twice restores, and swapping permutes. |
| `Mutations.BitFlipMutantIsNeverADuplicate` | fuzzer/fuzzer/evolution.cpp:225-227 | A bit-flip mutant never has its parent's hash, so the duplicate filter never takes it for its parent. |
| `Mutations.AppendedZeroIsNeverADuplicate` | fuzzer/fuzzer/mutations.cpp:35-47 | Nor has a parent with a zero byte put in at its end, unless the byte completes a block of 16. |
| `Mutations.ChangedByteHash` | fuzzer/fuzzer/evolution.cpp:225-227 | Changing one byte changes the hash if and only if it changes the byte. |
| `Mutations.SwapInBlockHash` | fuzzer/fuzzer/evolution.cpp:225-227 | Swapping two bytes of one block changes the hash if and only if they differ. |
| `Measure.NormIsLeast` | fuzzer/fuzzer/measure.cpp:12-18 | The norm is the least n with 10 n^2 >= abs^2 + 9 diff^2. |
| `Measure.ExactNorms` | fuzzer/fuzzer/measure.cpp:12-18 | Scores whose norm is exact, for every multiple: the parts weigh 1 and 9 out of 10. |
| `Measure.ZeroOnlyAtZero` | fuzzer/fuzzer/measure.cpp:12-18 | Zero exactly for the zero score. |
| `Measure.NormMonotone` | fuzzer/fuzzer/measure.cpp:12-18 | Monotone in both parts. |
| `Measure.NormAtMostMax` | fuzzer/fuzzer/measure.cpp:12-18 | At most the larger part. |
| `Measure.NormSubadditive` | fuzzer/fuzzer/measure.cpp:12-18 | The norm of a sum is at most the sum of the norms. |
| `Measure.StrictWeakOrder` | fuzzer/fuzzer/measure.cpp:43-57 | operator< is irreflexive and transitive, and its incomparability is transitive. |
| `Measure.EachNormCounts` | fuzzer/fuzzer/measure.cpp:43-57 | A measure behind in one norm and ahead in none is the smaller, whatever the lengths. |
| `Measure.ExchangeRate` | fuzzer/fuzzer/measure.cpp:43-57 | Seven of the edge norm are worth exactly three of the goal norm: then, and only then, the length decides. |
| `Measure.GreaterIsNotTheConverse` | fuzzer/fuzzer/measure.cpp:59-61 | operator> differs from the converse of operator< exactly on unequal measures of equal weight and length, where it holds both ways. |
| `Measure.EdgesOutweighGoals` | fuzzer/fuzzer/evolution.cpp:193-217 | The fitness strategy passes edges where goals are expected, so it is the edges that weigh 0.7. |
| `BestSet.BestIndividuals.Insert` | fuzzer/fuzzer/evolution.cpp:222-270 | Each call is one step of the value-level insertion for some search result; true is returned exactly for a new individual, not below min_key, that is greater than max_key. |
| `BestSet.BestIndividuals.ConsolidateMinKey` | fuzzer/fuzzer/evolution.cpp:321-328 | min_key becomes the lowest stored score, or the sentinel when nothing lies below it. |
| `BestSet.BestIndividuals.GetBest` | fuzzer/fuzzer/evolution.cpp:283-302 | The last entries in descending order, none of which is below any entry not returned; one entry even for zero. |
| `BestSet.ReachableStates` | fuzzer/fuzzer/evolution.cpp:222-270 | In every reachable state the hash set is the set of hashes of the stored individuals, these are pairwise distinct, the container is sorted and min_key is a lower bound. |
| `BestSet.EvictsAWorst` | fuzzer/fuzzer/evolution.cpp:237-244 | The evicted entry is at most every stored one. |
| `BestSet.MinKeyRises` | fuzzer/fuzzer/evolution.cpp:232-257 | Once the set is full min_key never falls. |
| `BestSet.BestAreKept` | fuzzer/fuzzer/evolution.cpp:222-270 | After any run, an individual that was not a duplicate when offered is stored, or its score is at most every stored score. |
| `BestSet.MaxKeyIsHighest` | fuzzer/fuzzer/evolution.cpp:222-270 | After any run max_key is the highest of its start and the new scores that were not below min_key when offered: none lies above it and it is one of them. |
| `BestSet.NewBestExactly` | fuzzer/fuzzer/evolution.cpp:222-270 | Hence an insertion reports an improvement if and only if the individual is new, not below min_key, not below any such score before it, and not of the very measure that is the highest. |
| `BestSet.MinKeyIsStored` | fuzzer/fuzzer/evolution.cpp:222-270 | After any run min_key is its start, the sentinel or a stored score. |
| `BestSet.RunRegisters` | fuzzer/fuzzer/evolution.cpp:222-270 | Seen from the container alone, every run of insertions refuses, places or replaces one individual after the other, which is what Evolution works with. |
| `BestSet.GrowsExactly` | fuzzer/fuzzer/evolution.cpp:232-257 | A full set grows if and only if it admits an individual and no stored key is equivalent to min_key. |
| `BestSet.ScanFindsAKeyExactly` | fuzzer/fuzzer/evolution.cpp:321-328 | After a scan min_key is a stored key if and only if some stored score is not above the sentinel. |
| `BestSet.SizeBound` | fuzzer/fuzzer/evolution.cpp:222-270 | With scores not above the sentinel the set never holds more than max_size + 1. |
| `BestSet.FillsPastMaxSize` | fuzzer/fuzzer/evolution.cpp:239-247 | The max_size of the header is exceeded: max_size + 1 new individuals above the initial min_key are all stored. |
| `BestSet.GrowsWithoutBound` | fuzzer/fuzzer/evolution.cpp:321-328 | With scores above the sentinel every new individual is stored and nothing is evicted. |
| `BestSet.AboveTheSentinel` | fuzzer/fuzzer/evolution.cpp:321-323 | Maximal scores lie above the sentinel exactly for inputs shorter than 2^32 - 1 bytes. |
| `BestSet.BoundIsTight` | fuzzer/fuzzer/evolution.cpp:239-247 | For every max_size below 2^128 some run with scores not above the sentinel does store max_size + 1. |
| `BestSet.HoldsAnyNumber` | fuzzer/fuzzer/evolution.cpp:321-328 | For every max_size and every n up to the number of hash values, 2^128, some run stores n individuals. |
| `BestSet.BlockHashes` | fuzzer/fuzzer/evolution.cpp:225-227 | The 2^128 different inputs of 16 bytes have different hashes. |

## Left out

- Instrument: lambdas, exceptions, goto, macros, source ranges and text offsets; the text insertions are modelled by the
  tree they produce. Block ids come with the tree instead of from a control-flow graph.
- Preservation.MeaningPreserved: case labels nested below an unlabelled statement of a switch body (as in Duff's device)
  are not jump targets in the model. Functions outside the program cannot call back into it.
- Instrument: one return variable per function stands for the variable per return statement that functions returning
  references get. In the source that is an initialised declaration; behind a case label followed by another one it
  makes the output ill-formed C++ (the later label jumps past it), which the model does not show.
- Preservation.TraceExact: which functions are instrumented is a parameter; the bookkeeping by qualified name and main file
  that decides it is not modelled.
- Pipeline: the sets of ids kept for logging and the UI, the logging inside the waits, the mocked run without a target,
  the crash analyser, and the watcher's local state: any pid may get any final status at any time.
- Pipeline.EachTestcaseInOnePlace: a pid handed out by the system is assumed not to be one that is still mapped, and the
  single accesses to concurrent containers are atomic.
- Pipeline.NeverRunningAgain: a pid that was removed may be tracked again as a new process.
- Pipeline.ProgressUnlessDropped: says that an end can be reached, not that a scheduler reaches it; likewise
  GenerationCanEndExactly.
- Individual.id is only set when it is 0, while a call always uses the newest testcase id; that scores of an individual
  kept from an earlier generation are filed under another id is not modelled.
- Murmur3.NoCollision: hosts are little-endian and lengths below 2^31; two buffers that differ in more than one window may
  collide. The 32-bit and the x86 variants are not modelled.
- Uint128: the templates over other integer types, compound assignments, increments and stream output only wrap the
  operators modelled here.
- Store: predecessor ids, sources and serialisation; ids are not bounded by their 32 bits. A function's CFG numbers are
  assumed distinct, as Clang makes them.
- Knowledge.ProgramKnowledge.GetBlockElement: the null entries that indexing a missing id inserts into the element map are
  not modelled; they answer later lookups like a missing id.
- Coverage: per-block hit counters for the UI, dot output, mocked scores, `evaluate_trace` and the mocked traces.
- Coverage.Coverage.AddTrace: a block has fewer than 2^32 / 10 goals.
- BlindPairing: mocked goal scores for blind graphs.
- Memory: buffers are values in a map, so a pointer kept across a resize is not expressible; failed allocations are not
  modelled. Sizes stay below 2^32, the width of the random draws.
- Memory.MemoryManager.RemoveBytes: requires what the copying needs, a range inside the buffer and an allocated byte for
  the terminating zero.
- Memory.MemoryManager.ResizeBuffer: likewise requires a positive new size to hold the current length, which is what
  insert_bytes passes; a smaller one overruns the new buffer.
- Handles: genealogy. Individuals are named by address; moving and copy elision are copies and destructions.
- Evolution: bytes, ids, scores and when a perturbation is due; who mates, is stored or evicted is left open, and of whom
  an individual is a clone is not followed. Every index lies in its vector: reinjection and perturbation stop at its end
  where the code would read past it, and two drawn parents may be the same.
- Mutations: random draws are parameters in range; shuffling a segment, changing an ASCII integer and the cross-overs.
- Mutations.DuplicateByte: any multiplicity, not only up to four; likewise the ranges of DuplicateBytes.
- Measure: exact square roots and weights instead of long double and the constants 0.3 and 0.7.
- BestSet: the read-only copies for the UI and the mutexes; a search for a key may return any equivalent entry. Hashing needs
  inputs below 2^31 bytes. max_key is followed but nothing is claimed of it, since operator> is no order on ties.
- Elitism, mating and the bytes of cross-overs choose individuals and carry no further invariant; the unused `inject_seeds`
  and `drop` are not modelled.
- Process spawning, signals, shared memory, sockets, web interface, LevelDB and command line: foreign calls.
