# Verified model of the taint tracker and the address mapper

This project models, in Dafny, the two programs that derive a safe span for a kernel
tunable, and proves what they compute.

* **The taint tracker** (`passes/TaintTrackerPass/TaintTrackerPass.cpp`) seeds taint at the
  occurrences of a constant, spreads it with a worklist nested in a fixed-point loop (uses,
  stores to pointers, loads from pointers, kill stores, calls downwards), then spreads it
  from callees to callers with two tables of function summaries, gives each value a level
  in the call graph and reports the span of the largest level.
* **The address mapper** (`scripts/ir_to_assembly.py`) turns the reported source lines into
  addresses, using a symbol table, a line table and a disassembly, and into offsets from a
  base symbol, relocated when an offset would be negative.

The tracker is `Engine.TaintTracker`, a class whose fields are the tables of `run`. Each
method is proved to perform a step of `TaintState`, or to keep the invariant of
`Invariants`; `Closure` says what the tables mean when the loops have ended;
`Engine.TaintTracker.Run` states it for whole runs. A conclusion is a *fact*: a value is
tainted, a pointer holds taint, a function returns taint, or a function taints what one of
its pointer parameters points to. The flow rules (`FlowRules`) are a step relation on facts,
written from the rules of the pass and not from the engine's steps, so a derivation is a
path and "derivable" is a least fixed point (`Reachability`).

| file | contents |
|---|---|
| `IR` | instructions by position, use lists, cast stripping, program order |
| `Orders` | walks over sets and user lists in an arbitrary order |
| `Reachability` | paths, reachability, its induction principle |
| `PointerOrigin`, `StructFields` | the two searches with a shared visited set |
| `FlowRules` | facts, seeds, flow rules, derivability |
| `TaintState` | the tables as a value, and every step on them |
| `Invariants` | what every step keeps, and what every table entry goes back to |
| `Updates` | each single update of the tables keeps it |
| `Occurrences` | which occurrence of the constant is chosen |
| `SeedSteps`, `MainSteps`, `ScanSteps`, `UpwardSteps` | each step keeps it and does its job |
| `Closure`, `Progress` | the phases at rest; the termination measures |
| `Engine` | the tracker, loop by loop |
| `Example` | two small modules worked out by the flow rules |
| `LocalMemory` | inputs without flow through module-wide memory; an input with it |
| `Span` | largest level, two range scans, counts, positions |
| `Location` | printing and reading source locations |
| `Listings`, `Symbols`, `NearbyLines`, `AddressLookup`, `Relocation` | the mapper |

## Main results

* *Main phase.* When the worklist is first empty, the tables hold exactly what derives
  without loads. At rest they contain everything derivable with loads excused by origins
  and recorded kills, and nothing but what is derivable with loads excused by origins and
  the kills known at the first scan; no store that overwrites taint is left unrecorded. They
  equal the least fixed point with loads excused by origins alone **if and only if** no load
  was lost to a kill.
* *Whole pass.* Every conclusion has a derivation from a seed. After the upward phase every
  use is dealt with, every matching load is tainted unless it stands before its pointer's
  origin in the block (kills no longer count), and both summary tables are closed over all
  direct calls.
* *Every step.* Tainted pointers are exactly those with an origin, origins never change, a
  recorded kill writes a tainted pointer not before its origin, each tainted value is on the
  worklist once or was taken off it once. Every origin, recorded field and level goes back to
  an instruction that accounts for it, and each step concludes exactly what its rules say.
* *Levels* are heights of walks in the call graph; without downward propagation they are
  call depths, bounded by the number of functions. This holds for every input that admits
  no flow of taint to module-wide memory (`LocalMemory.NoneGlobal`, a reachability question
  on the input), in particular when the addresses stored to are local. Otherwise a load may
  be tainted in a function that has no level: `LocalMemory.LoadWithoutLevel` is such an
  input, and `LocalMemory.LoadLevel` says exactly when a load gets one.
* *Termination* of the nested loops, with bounds on the rounds and on the worklist.
* *Span.* The two independently written range scans agree, on the tightest intervals.
* *Mapper.* Both lookups agree on all inputs; containment of addresses is a partition; the
  nearest line is chosen; relocated offsets are non-negative exactly under a stated
  condition; printed locations are read back exactly when a column was printed or the file
  name has no colon (`Location.ColonWithoutColumn` is a location for which it fails).

## Model

| member | source | states |
|---|---|---|
| PointerOrigin.OriginExact | passes/TaintTrackerPass/TaintTrackerPass.cpp:281-418 | the search answers with a parameter exactly when some pointer parameter is reachable through casts, phis, field addresses, loads and stores to local variables, and then with a reachable one, despite cycles and the shared visited set |
| PointerOrigin.OriginIsFirst | passes/TaintTrackerPass/TaintTrackerPass.cpp:327-403 | the answer is reachable from the first branch in turn (incoming values of a phi in operand order, stored values of a local variable in the order of its use list) that leads to a pointer parameter without coming back, and no earlier branch leads to one; a parameter answers itself |
| PointerOrigin.OriginIsLocal | passes/TaintTrackerPass/TaintTrackerPass.cpp:281-418 | the parameter found belongs to the function in which the value is used, and is a pointer parameter |
| PointerOrigin.SearchExplores | passes/TaintTrackerPass/TaintTrackerPass.cpp:281-418 | a search that finds nothing leaves a visited set closed under derivation and free of pointer parameters, whatever was visited before |
| PointerOrigin.SearchSound | passes/TaintTrackerPass/TaintTrackerPass.cpp:281-418 | whatever was visited before, an answer is a pointer parameter the value derives from |
| PointerOrigin.OriginSearch.Origin | passes/TaintTrackerPass/TaintTrackerPass.cpp:281-418 | the recursive search with its mutable visited set performs the specified search, and leaves the specified visited set |
| PointerOrigin.GetPointerParameterOrigin | passes/TaintTrackerPass/TaintTrackerPass.cpp:281-418 | on a fresh visited set the search decides reachability of a pointer parameter, and answers with what the first branch that leads to one leads to |
| StructFields.FieldIndicesAreBehind | passes/TaintTrackerPass/TaintTrackerPass.cpp:232-277 | every struct field index extracted from an address is the field of some getelementptr the address goes through |
| StructFields.FieldIndicesOfChain | passes/TaintTrackerPass/TaintTrackerPass.cpp:232-277 | for an address whose chain loads no local variable, the indices extracted are exactly the constant fields of its getelementptrs, outermost first, loads in between included |
| StructFields.FieldIndicesOfLoad | passes/TaintTrackerPass/TaintTrackerPass.cpp:232-277 | for a load of a local variable the indices are the fields of the first stored value, in the order of the use list, whose chain has any, whatever chains were walked before; none when no chain has any |
| StructFields.ExtractStructFieldIndices | passes/TaintTrackerPass/TaintTrackerPass.cpp:232-277 | the extraction with its mutable visited set yields the specified indices, in order |
| FlowRules.DerivableMonotone | passes/TaintTrackerPass/TaintTrackerPass.cpp:559-662 | a derivation survives later origins, additional rules and withdrawn kills |
| Example.LoadsReached | passes/TaintTrackerPass/TaintTrackerPass.cpp:596-655 | worked out on a block: after the store of the constant the loads behind it are reached, direct or through a field, in the same block or another; not the load before it, nor the one behind a recorded kill |
| Example.SummaryWorks | passes/TaintTrackerPass/TaintTrackerPass.cpp:1312-1450 | worked out on two functions: the constant seeds the store and the pointer parameter, the call taints exactly the struct passed and the variable its field points to, and the use of its load in a return makes the caller return taint |
| Occurrences.SlotsAreCounted | passes/TaintTrackerPass/TaintTrackerPass.cpp:743-779 | the operand slots counted are exactly the operands equal to the constant in instructions of the chosen function and opcode, and they are counted in program order |
| Occurrences.SlotsOfInstruction | passes/TaintTrackerPass/TaintTrackerPass.cpp:763-779 | within an instruction every matching operand counts once, in operand order |
| Occurrences.OccurrenceIsChosen | passes/TaintTrackerPass/TaintTrackerPass.cpp:763-930 | occurrence 0 chooses all slots, occurrence k the one with exactly k - 1 before it, and none when there are fewer |
| SeedSteps.SeedingIsExact | passes/TaintTrackerPass/TaintTrackerPass.cpp:743-930 | after seeding the tables hold exactly the seed facts of the chosen operand slots (all of them, or the k-th), no more and no fewer, and the invariant holds |
| Engine.TaintTracker.Seed | passes/TaintTrackerPass/TaintTrackerPass.cpp:743-930 | the walk over the module with its running occurrence count ends in exactly the state of seeding the chosen slots in order: all of them for occurrence 0, else the k-th, else none; every seed fact holds and nothing else |
| MainSteps.MainUserKeeps | passes/TaintTrackerPass/TaintTrackerPass.cpp:960-1160 | processing one user keeps the whole invariant, withdraws nothing, and leaves everything the use rules demand of that user in the tables |
| MainSteps.MainUserExact | passes/TaintTrackerPass/TaintTrackerPass.cpp:960-1160 | processing one user adds exactly the conclusions of the use rules for that user: nothing is missed and nothing else is concluded |
| MainSteps.PassDownKeeps | passes/TaintTrackerPass/TaintTrackerPass.cpp:980-1010 | entering a defined callee taints its parameter, with provenance; parameter and function get the level one below that of the value passed, which is a height of the callee |
| Engine.TaintTracker.ProcessUser | passes/TaintTrackerPass/TaintTrackerPass.cpp:960-1160 | the imperative step on one user is the specified one, and its answer tells whether anything was concluded |
| Engine.TaintTracker.DrainWorklist | passes/TaintTrackerPass/TaintTrackerPass.cpp:943-1165 | the last-in-first-out loop ends with an empty worklist and every user of every processed value dealt with, in any order of users |
| Engine.TaintTracker.IsLoadBeforeTaintOrigin | passes/TaintTrackerPass/TaintTrackerPass.cpp:465-479 | the walk over the block decides whether the load stands before the pointer's origin in the same block |
| Engine.TaintTracker.IsAfterKill | passes/TaintTrackerPass/TaintTrackerPass.cpp:596-655 | the walk over recorded kills decides whether one of them stands before the load in its block and writes the pointer |
| Engine.TaintTracker.IsKillStore | passes/TaintTrackerPass/TaintTrackerPass.cpp:1162-1206 | decides whether a store of an untainted value kills: it writes a tainted pointer and does not precede its origin in one block |
| Engine.TaintTracker.IdentifyKillStores | passes/TaintTrackerPass/TaintTrackerPass.cpp:1162-1206 | one sweep records exactly the kills under the present tables, besides those recorded before |
| Closure.KillsOverwrite | passes/TaintTrackerPass/TaintTrackerPass.cpp:1162-1206 | the stores recorded are exactly those that put an untainted value into a tainted pointer, are not tainted themselves and do not stand before what tainted the pointer in one block |
| ScanSteps.KillKeeps | passes/TaintTrackerPass/TaintTrackerPass.cpp:1162-1206 | recording a kill keeps the invariant: it writes a pointer that has an origin and does not precede it in one block |
| ScanSteps.ScanLoadKeeps | passes/TaintTrackerPass/TaintTrackerPass.cpp:559-662 | scanning a load keeps the invariant; afterwards a matching load is tainted or excused by the origin, or by a kill in the main phase only |
| ScanSteps.ScanLoadExact | passes/TaintTrackerPass/TaintTrackerPass.cpp:559-662 | scanning a load taints it exactly when it matches the pointer, does not precede its origin and, where kills are heeded, stands behind no recorded kill; nothing else is concluded |
| Engine.TaintTracker.ScanLoadsFromPointer | passes/TaintTrackerPass/TaintTrackerPass.cpp:559-662 | after scanning a pointer every load in the module that matches it is tainted or excused, no load was tainted that is excused, and the answer tells whether a value became tainted |
| Engine.TaintTracker.MainRound | passes/TaintTrackerPass/TaintTrackerPass.cpp:943-1235 | one round empties the worklist, records exactly the stores that overwrite taint in the state then reached, and taints only loads from tainted pointers that stand behind none of the recorded kills; no store that overwrites taint is left unrecorded |
| Engine.TaintTracker.MainPhase | passes/TaintTrackerPass/TaintTrackerPass.cpp:943-1235 | the fixed-point loop ends with tables closed under the main-phase rules and every store that overwrites taint recorded, within as many rounds as values and pointers can still be concluded, plus one; every scan heeds the kills known when the worklist was first empty |
| Closure.MainAtRest | passes/TaintTrackerPass/TaintTrackerPass.cpp:943-1235 | an empty worklist with all users processed and all pointers scanned means closure under every main-phase rule |
| Closure.DrainedIsExact | passes/TaintTrackerPass/TaintTrackerPass.cpp:943-1160 | when the worklist is first empty, the tables hold exactly what derives from the seeds without any load |
| Closure.MainSandwich | passes/TaintTrackerPass/TaintTrackerPass.cpp:943-1235 | at rest the tables lie between the least fixed point with loads excused by origins and all recorded kills and the one with loads excused by origins and the kills known at the first scan |
| Closure.MainExact | passes/TaintTrackerPass/TaintTrackerPass.cpp:559-662 | the tables equal the least fixed point with loads excused by origins alone if and only if no matching load stayed untainted because of a kill |
| UpwardSteps.CallReturnsKeeps | passes/TaintTrackerPass/TaintTrackerPass.cpp:1262-1310 | a direct call of a function that returns taint becomes tainted, with provenance, at the level one above that of the function called |
| UpwardSteps.CallTaintsKeeps | passes/TaintTrackerPass/TaintTrackerPass.cpp:1312-1475 | at a call of a function that taints a pointer parameter, the argument's own origin is recorded as a parameter of the caller or the variable behind the argument becomes a tainted pointer, with the whole invariant kept |
| UpwardSteps.CallTaintsExact | passes/TaintTrackerPass/TaintTrackerPass.cpp:1312-1475 | such a call adds exactly that parameter or, for a variable not marked before, the variable and the local variables stored in its searched fields; nothing else |
| UpwardSteps.MarkPassedExact | passes/TaintTrackerPass/TaintTrackerPass.cpp:1384-1450 | a struct variable marked at a call is searched: every local variable stored in a field that is accessed (in any field when none is recorded) is marked too, and no other |
| Engine.TaintTracker.TaintArgument | passes/TaintTrackerPass/TaintTrackerPass.cpp:1340-1475 | the step at one call adds exactly that, and answers whether a parameter was recorded |
| UpwardSteps.MarkStoredExact | passes/TaintTrackerPass/TaintTrackerPass.cpp:1398-1446 | from the stores into a field address exactly those local variables become tainted pointers whose address is stored there |
| UpwardSteps.MarkFieldsExact | passes/TaintTrackerPass/TaintTrackerPass.cpp:1398-1446 | from a struct variable exactly the local variables stored in an accessed field are marked, or in any field when none is recorded |
| UpwardSteps.FieldsAccumulate | passes/TaintTrackerPass/TaintTrackerPass.cpp:493-556 | the field indices recorded for a parameter are the union of those used so far, none listed twice |
| UpwardSteps.RecordFieldsExact | passes/TaintTrackerPass/TaintTrackerPass.cpp:522-541 | a store through a parameter adds exactly the fields its address goes through, to that parameter of that function only |
| UpwardSteps.UpwardUserKeeps | passes/TaintTrackerPass/TaintTrackerPass.cpp:1482-1538 | processing one user in the upward phase keeps the invariant and leaves the user tainted, even where the main phase stops |
| UpwardSteps.UpwardUserExact | passes/TaintTrackerPass/TaintTrackerPass.cpp:1482-1538 | a user tainted before is skipped; any other adds exactly its own taint, the pointer stored to, the parameter behind it and the return of its function |
| UpwardSteps.MainSettlesUse | passes/TaintTrackerPass/TaintTrackerPass.cpp:1092-1157 | what the main phase does with a use is enough: the user is tainted, a recorded return, a store to a global, or a store through a recorded parameter |
| Engine.TaintTracker.ProcessStoreForTaint | passes/TaintTrackerPass/TaintTrackerPass.cpp:493-556 | marks the address, records the parameter behind it and its fields, and answers whether the summary table grew |
| Engine.TaintTracker.TaintArguments | passes/TaintTrackerPass/TaintTrackerPass.cpp:1312-1475 | after the walk every direct call of every recorded function is accounted for at every recorded parameter |
| Engine.TaintTracker.UpwardRound | passes/TaintTrackerPass/TaintTrackerPass.cpp:1248-1577 | one iteration answers exactly whether a summary entry was added; when none was, both tables are closed over all call sites |
| Engine.TaintTracker.UpwardPhase | passes/TaintTrackerPass/TaintTrackerPass.cpp:1242-1580 | the loop ends with uses, loads and both summaries closed, within 1 + functions not yet returning taint + pointer parameters not yet recorded rounds |
| Closure.UpwardAtRest | passes/TaintTrackerPass/TaintTrackerPass.cpp:1242-1580 | the upward phase at rest has dealt with every use, tainted every matching load that does not precede its origin (kills are cancelled), and closed both summary tables |
| Closure.StoresLand | passes/TaintTrackerPass/TaintTrackerPass.cpp:1480-1538 | a store of a tainted value went to a global, into a recorded pointer parameter or to a tainted pointer, unless its address is itself tainted |
| Closure.WholePassSandwich | passes/TaintTrackerPass/TaintTrackerPass.cpp:943-1580 | at rest the pass has everything the core rules derive when kills no longer excuse loads, and only what the full rules derive from the seeds |
| Closure.LevelsAreHeights | passes/TaintTrackerPass/TaintTrackerPass.cpp:783-788 | when no module-wide pointer is tainted, every tainted value has a level and every recorded level is a height: a walk in the call graph from the source function with that many more steps up than down |
| Closure.LevelsAreCallDepths | passes/TaintTrackerPass/TaintTrackerPass.cpp:1283-1291 | when no module-wide pointer is tainted and downward mode is off, every function at level k has a chain of exactly k direct calls down to the source function, and levels lie between 0 and the number of functions |
| LocalMemory.NoGlobalPointer | passes/TaintTrackerPass/TaintTrackerPass.cpp:493-556 | if the input admits no flow of taint to module-wide memory, wherever its loads stand, no state of a run holds a tainted module-wide pointer |
| LocalMemory.StaysLocalSuffices | passes/TaintTrackerPass/TaintTrackerPass.cpp:1312-1475 | the input admits none, for any constant, when every store address is local (or a global, with upward mode off) and, with upward mode on, every field address passed to a call has a local base |
| LocalMemory.LoadLevel | passes/TaintTrackerPass/TaintTrackerPass.cpp:482-490 | a load that becomes tainted has a level exactly when it had one or its function has one |
| LocalMemory.UserOfLevelless | passes/TaintTrackerPass/TaintTrackerPass.cpp:133-155 | a user of a tainted value without a level gets the level of the value's function, and 0 where that has none |
| LocalMemory.LoadWithoutLevel | passes/TaintTrackerPass/TaintTrackerPass.cpp:503-507 | three functions and a global for which the steps of the pass taint a load without a level, in a function without one |
| Closure.AllPopped | passes/TaintTrackerPass/TaintTrackerPass.cpp:944-950 | with an empty worklist every tainted value was taken off it exactly once over all phases, and every conclusion is derivable |
| Closure.LastInFirstOut | passes/TaintTrackerPass/TaintTrackerPass.cpp:944-950 | the worklist is a stack: the value pushed last is taken off first |
| Updates.TracedStep | passes/TaintTrackerPass/TaintTrackerPass.cpp:482-556 | what the tables go back to stays true in every step: each origin is a store of a tainted value to its pointer or a call that taints it; each recorded field was stored through; each tainted value has the level of a source, of a tainted value it uses, one below the value passed to it, one above the function whose return it is, or of its function if it is a load; each function has level 0 as source or one above a function it calls |
| Updates.TaintKeeps | passes/TaintTrackerPass/TaintTrackerPass.cpp:1150-1155 | tainting a new value keeps worklist discipline, origins, provenance, accounting, levels and where they come from |
| Updates.MarkPointerKeeps | passes/TaintTrackerPass/TaintTrackerPass.cpp:1140-1143 | marking a pointer keeps the tainted pointers equal to the domain of the origins, never changes an origin already set, and records what tainted the pointer |
| Updates.RecordParamKeeps | passes/TaintTrackerPass/TaintTrackerPass.cpp:1107-1125 | recording a tainted pointer parameter keeps the whole invariant, given its derivation |
| Invariants.HeightIsDepth | passes/TaintTrackerPass/TaintTrackerPass.cpp:1354-1361 | without steps down, a height is the length of a chain of direct calls, and not negative |
| Updates.CallerHeight | passes/TaintTrackerPass/TaintTrackerPass.cpp:1384-1391 | a caller gets a level that is a height of it, one above the callee's |
| Progress.MissingShrinks | passes/TaintTrackerPass/TaintTrackerPass.cpp:1565-1577 | each round that discovers something leaves fewer functions not returning taint and pointer parameters not recorded, and the number never goes below zero |
| Progress.SummariesAtRest | passes/TaintTrackerPass/TaintTrackerPass.cpp:1565-1577 | a round that discovers nothing has visited the call sites of every entry there is |
| Engine.TaintTracker.Run | passes/TaintTrackerPass/TaintTrackerPass.cpp:664-1580 | for every module and configuration: exactness before the first scan, the main-phase sandwich with its exact condition and no kill missed, provenance of every final conclusion, origin and recorded field, all seeds kept, each value popped once, every use dealt with, both summaries and loads closed after the upward phase, bounds on the rounds of both loops, and no tainted module-wide pointer when the input admits no flow to one |
| Engine.TaintTracker.RunAndReport | passes/TaintTrackerPass/TaintTrackerPass.cpp:664-1960 | the final report of a run is right for its tables, with the largest level; for inputs without flow to module-wide memory every tainted value has a level that is a height and goes back to its source, use, call or function, and the reported level is a height of every reported function; call depths with downward mode off |
| Engine.ReportedDepths | passes/TaintTrackerPass/TaintTrackerPass.cpp:1582-1606 | with no module-wide pointer tainted and downward mode off, there is no report exactly when nothing is tainted, and the reported level is a call depth of every reported function |
| Span.FindMaxLevel | passes/TaintTrackerPass/TaintTrackerPass.cpp:1582-1601 | no tainted value has a level above the one found, and one has it, unless all are at the least integer |
| Span.EarliestLatest | passes/TaintTrackerPass/TaintTrackerPass.cpp:1633-1659 | comparing every instruction with every collected one yields the tightest interval of each function |
| Span.MaxLevelRanges | passes/TaintTrackerPass/TaintTrackerPass.cpp:1732-1759 | testing the tables at each instruction of the counted functions yields the tightest intervals, and no other function |
| Span.SpansUnique | passes/TaintTrackerPass/TaintTrackerPass.cpp:1607-1759 | tightest intervals are unique, so the two scans have the same domain and the same end points |
| Span.CountSpan | passes/TaintTrackerPass/TaintTrackerPass.cpp:1761-1795 | the walk from the first to the last instruction counts the difference of their offsets in the function plus one |
| Span.SpanSumIsSize | passes/TaintTrackerPass/TaintTrackerPass.cpp:1761-1795 | the first instruction count is the number of instructions that lie in the reported intervals |
| Span.FullSumIsSize | passes/TaintTrackerPass/TaintTrackerPass.cpp:1761-1804 | the other count is the number of instructions of the other visited functions |
| Span.CountsWithinVisited | passes/TaintTrackerPass/TaintTrackerPass.cpp:1761-1804 | the spans and the other visited functions together never exceed the instructions of the visited functions |
| Span.LocateAll | passes/TaintTrackerPass/TaintTrackerPass.cpp:1818-1849 | the reported block and index pairs decode to the ends of the intervals |
| Span.VisitedFunctions | passes/TaintTrackerPass/TaintTrackerPass.cpp:1713-1728 | the visited functions are exactly those with a tainted value that has a level |
| Span.FinalReport | passes/TaintTrackerPass/TaintTrackerPass.cpp:1582-1960 | no report exactly when no tainted value has a level above the least integer, else the level is the largest; both range tables are equal and tight; the counts are the numbers of instructions inside the intervals and in the other visited functions; positions are right; the functions with a span are among those visited, so the subtraction never goes below zero; with arguments only, exactly the functions that own one at the level are counted, whole |
| Location.GetDebugLoc | passes/TaintTrackerPass/TaintTrackerPass.cpp:65-117 | prints the instruction's own location, or that of the first of the next ten in its block with a line, or unknown |
| Location.RoundTrip | scripts/ir_to_assembly.py:468-472 | reading a printed location gives back file and line if and only if a column was printed or the file name has no colon |
| Location.ColumnRoundTrip | passes/TaintTrackerPass/TaintTrackerPass.cpp:73-81 | the printed text splits into the file, the line and the column where one is printed, and both numbers read back, without leading zeros |
| Location.ReportRoundTrip | passes/TaintTrackerPass/TaintTrackerPass.cpp:73-81 | the same through the text between the angle brackets, for own and approximate locations: read back if and only if the file name has no closing bracket, and a column was printed or it has no colon |
| Location.ColonWithoutColumn | scripts/ir_to_assembly.py:468-472 | a file name with a colon and no column is read as another file and line |
| NearbyLines.ScanListing | scripts/ir_to_assembly.py:668-712 | carrying file and line through the listing collects exactly the addresses of the wanted line, in listing order |
| NearbyLines.InsnOfIs | scripts/ir_to_assembly.py:668-712 | an instruction belongs to a line exactly when the last source reference above it has a path, that line number, not 0, and one of the two paths, normalised, ends with the other |
| NearbyLines.NearbyIsNearest | scripts/ir_to_assembly.py:668-712 | the answer is the nearest positive line within 3 that has instructions, the lower of two equally near, and nothing exactly when there is none |
| NearbyLines.TryNearbyLines | scripts/ir_to_assembly.py:668-712 | the search over the built list of offsets answers as specified |
| Listings.NormalizedPath | scripts/ir_to_assembly.py:567-571 | exactly the leading dots and slashes of a path are dropped |
| NearbyLines.FirstAddress | scripts/ir_to_assembly.py:668-712 | the first address of a line is that of its first instruction in the listing |
| NearbyLines.LastAddress | scripts/ir_to_assembly.py:668-712 | the last address of a line is that of its last instruction in the listing |
| NearbyLines.AddressesInOrder | scripts/ir_to_assembly.py:668-712 | the addresses of a line are those of all its instructions, once each and in listing order |
| Symbols.FindCandidates | scripts/ir_to_assembly.py:715-757 | the carried directory and the rows yield exactly the addresses of the wanted line, in order |
| Symbols.CandidateIs | scripts/ir_to_assembly.py:715-757 | a row is a candidate exactly when it names the line and the base name of the file, and the last header above it, if any, contains the path or the base name |
| Symbols.CandidatesInOrder | scripts/ir_to_assembly.py:715-757 | the candidate addresses are those of all candidate rows, once each and in listing order |
| Symbols.TableIsLatest | scripts/ir_to_assembly.py:759-776 | the dictionary holds the last start of each text symbol and nothing else |
| Symbols.TableKeepsPlaces | scripts/ir_to_assembly.py:759-776 | a symbol keeps the place of its first occurrence in the dictionary |
| Symbols.SortIsStable | scripts/ir_to_assembly.py:778-779 | sorting by start keeps the order of symbols with equal starts |
| Symbols.ContainingIsPredecessor | scripts/ir_to_assembly.py:781-800 | the containing function is the last whose start is not above the address, and there is none exactly when all starts are above |
| Symbols.ContainmentIsAPartition | scripts/ir_to_assembly.py:759-800 | every address at or above the lowest text symbol belongs to exactly one function, the one with the greatest start not above it, and an address below belongs to none |
| Symbols.CreditIsOwed | scripts/ir_to_assembly.py:781-800 | each function is credited with exactly the addresses it contains, in order |
| Symbols.OwedInOrder | scripts/ir_to_assembly.py:781-800 | what a function is credited with are the candidates whose greatest start not above is its own, once each and in order |
| Symbols.SearchGuarantee | scripts/ir_to_assembly.py:715-817 | the function answered is a text symbol at its last start in the listing; it contains at least as many addresses of the line as any other, and of equal ones its first address comes first; all its addresses, and only they, are returned, none below its base; no answer exactly when no address is at or above the lowest text symbol |
| Symbols.FindFunctionForSourceLine | scripts/ir_to_assembly.py:715-821 | the imperative search answers as specified |
| AddressLookup.FindAddressForLine | scripts/ir_to_assembly.py:1004-1152 | the single-address lookup as specified on the exact, nearby, inlining, module-search and fallback paths |
| AddressLookup.FindAddressRangeForSingleLine | scripts/ir_to_assembly.py:824-1001 | the range lookup as specified on the same paths |
| AddressLookup.LookupsAgree | scripts/ir_to_assembly.py:852-1145 | for all inputs the address, base and symbol of the one lookup are the start, base and symbol of the other |
| AddressLookup.NearestLineRefinement | scripts/ir_to_assembly.py:1101-1137 | for a function present in the symbol table, if the line or one within 3 has instructions in its listing, the lookup answers with the first instruction of the best such line, and the function's start and name |
| AddressLookup.RangeRefinement | scripts/ir_to_assembly.py:953-986 | for a function present in the symbol table, the range runs from the first to the last instruction of the best line in the listing, with the function's start and name |
| AddressLookup.FallbackRange | scripts/ir_to_assembly.py:988-994 | without an instruction of the line or one within 3, the range is the first row for the line in the line table, alone, and nothing exactly when there is none |
| AddressLookup.ContainmentRange | scripts/ir_to_assembly.py:884-934 | for a function absent from the symbol table, the range runs from the first to the last address of the line in the function that contains most of them, with that function's start; else it is the first row of the line table without a base |
| AddressLookup.FirstModule | scripts/ir_to_assembly.py:894-920 | the module search answers as the first module, in order, that mentions the file and knows the function |
| AddressLookup.MismatchIsFirst | scripts/ir_to_assembly.py:888-920 | the function's own listings answer first, then the modules in order |
| AddressLookup.ConsideredIs | scripts/ir_to_assembly.py:898-914 | a module is looked into exactly when its line table mentions the file, its symbols are cached and its first symbol has a path |
| AddressLookup.FuncSymbolIsFirst | scripts/ir_to_assembly.py:869-882 | the symbol is the first one that is the function's name or that name with a dot and a suffix, and there is none exactly when no symbol is |
| AddressLookup.HomeIsPreferred | scripts/ir_to_assembly.py:205-227 | the module is that of the plain name, else of the split part, else of the specialised copy, and there is none exactly when none of them has one |
| AddressLookup.ActualIsHome | scripts/ir_to_assembly.py:853-865 | a function with a module file is looked up in it with the module's listings, or the kernel's where the module has none; any other in the kernel |
| AddressLookup.BestLineUnique | scripts/ir_to_assembly.py:668-712 | there is only one best line |
| Relocation.BestBaseIsGreatest | scripts/ir_to_assembly.py:574-607 | the base is the first text symbol with the greatest address strictly below the limit, and there is none exactly when no text symbol lies below |
| Relocation.FindBestBaseAddressBelowSpan | scripts/ir_to_assembly.py:574-607 | the loop over the symbol listing finds that base |
| Relocation.ProcessSingleResult | scripts/ir_to_assembly.py:1155-1333 | looks up both ends, as a range when they are the same line, and relocates them as specified |
| Relocation.EndsAreLookups | scripts/ir_to_assembly.py:1155-1207 | the earlier end is always where its line is looked up alone; the later one too, or within one line the end of its range, found exactly when the start is |
| Relocation.RelocationSymbolsAre | scripts/ir_to_assembly.py:1237-1283 | relocation consults the symbols that the lookup of the function consults, with the stated exceptions |
| Relocation.OffsetsNonNegative | scripts/ir_to_assembly.py:1209-1258 | with both ends found, both offsets are present and non-negative if and only if no relocation is needed or a text symbol lies strictly below the lower end |
| Relocation.RelocatedBase | scripts/ir_to_assembly.py:1209-1258 | after relocation both ends share the greatest text symbol strictly below the span, and their distance is kept |
| Relocation.SingleEndOffset | scripts/ir_to_assembly.py:1209-1258 | exactly when an end that was found alone gets a non-negative offset |
| Relocation.RelocatedAlone | scripts/ir_to_assembly.py:1261-1290 | an end found alone and without a base gets the greatest text symbol strictly below it |
| Relocation.UnchangedOtherwise | scripts/ir_to_assembly.py:1209-1290 | nothing is relocated without need or without a text symbol below |
| Relocation.ReportedOffsets | scripts/ir_to_assembly.py:1155-1258 | the same condition for the offsets of every whole query whose ends are found |
| Relocation.MismatchNeedsNoRelocation | scripts/ir_to_assembly.py:1155-1258 | a one-line span found by containment is reported as looked up, with non-negative offsets |

## Left out

- Closure.LevelsAreHeights: holds when no module-wide pointer is tainted. The conditions on the input that imply this are sufficient, not necessary: they count loads that stand before their pointer's origin, and every field of a struct.
- Closure.LevelsAreCallDepths: the bounds need downward mode off as well; with it on, levels may be negative.
- FlowRules.DerivableMonotone: the rule for struct-field targets admits every field, accessed or not, because the accessed fields recorded when a struct is marked may change later; UpwardSteps.MarkFieldsExact has the filter for the single step.
- Closure.WholePassSandwich: stores whose address is itself tainted are excepted in the lower bound, because the upward phase skips users that are already tainted; downward propagation and struct-field targets are in the upper bound only. A struct variable is searched for targets only when a call marks it first, and the tables do not tell this from one marked as a target itself.
- Closure.MainExact: which loads are lost depends on the order of processing, since the origin is whichever store is found first; independence of the order does not hold and is not stated.
- Recorded kills are not claimed to stay untainted, nor functions to have one level only; neither holds of the code.
- LLVM itself: cast stripping and use lists are parameters of a module, tied to its operands by well-formedness; types appear only as pointer parameters and struct variables.
- Orders: the pass sorts users by memory address and walks hash sets; these orders are arbitrary here.
- Indirect calls (cpp lines 707-742 and 1012-1081): the resolution is a fixed map from call sites to targets.
- Machine integers: levels, counters and the occurrence number are unbounded; only the least integer as the start of the maximum is kept.
- Printing, verbose traces, statistics, option parsing and pass registration.
- The helpers derivesFromPointerParameter and sameGEPPattern.
- Text of nm, readelf and objdump: lines are parsed records, so malformed numbers and the regular expressions are not modelled; dictionaries are sequences in insertion order, and an omitted one is empty.
- Location.ParseDecimal: Python's int also accepts signs, blanks and underscores; the reader here accepts digits only, which is all the printer produces.
- Subprocesses and their failures, caches, hashing, report parsing beyond the bracketed location, per-file adjustments, JSON output, batches and threads.
- The range lookup does not promise that the start is at most the end, and this is not stated.
- scripts/locate-const-in-ir.py, scripts/ss-analysis-parallel.py, shell scripts and the dataset.
