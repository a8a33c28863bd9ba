# RouteLang: compiled routes and the runtime around them

RouteLang turns route handlers (guards, waits, static for-loops, matches) into a
flat block graph, lowers that to straight-line code over optional and error
carriers, compiles it to a resumable native handler, and dispatches requests to
handlers through a specialised radix trie. This project models those steps in
Dafny and proves that each of them keeps the meaning of what it is given, for
every input it accepts.

For the control flow of routes, `Routes.RouteRefines` says that driving the
compiled handler from event to event, across the 64-bit return words, the resume
table and the context slots, gives exactly the suspensions and the reply of the
source statements taken top to bottom. `RouteBuild.BuildRoute` is the builder's
own imperative code, from collecting and sorting the steps to pushing the blocks,
proved to build exactly that handler. Expressions are left uninterpreted there:
`RouteRefines` holds whatever their leaves and operators compute. How expressions
are lowered is the subject of `Carriers`, `Compare` and `Answers`, and
`Whole.CompiledRouteCorrect` puts the two together: with every leaf of a route
computed by the code lowered for it, the handler does what the statements say of
what those expressions mean.

For dispatch, `Dispatch.Build` goes from the routes through their insertion into
the radix trie to the generated matcher, and `Dispatch.CodeAgreesExactly` says
exactly for which requests that matcher answers as the segment trie does. What
the segment trie chooses, parameters included, is `SegmentTrie.Dispatch`.

## Modules

| module | what it models |
|---|---|
| `Hir`, `Mir` | routes as the analyser hands them over; blocks, terminators, block layout |
| `Flatten`, `Targets`, `Descent` | the flattened graph: meaning, branch targets, termination |
| `MirBuild` | index reservation and block emission of the MIR builder |
| `Loops`, `Order`, `Routes`, `RouteBuild` | loop unrolling, sorting into source order, whole routes |
| `Meaning` | what guards, matches and loops mean, in other words |
| `Abi`, `Handler` | return words, dispatch on resume, wait slots, driving a handler |
| `Carriers` | lowering of nil, error, `or`, conditionals and locals to instructions |
| `Compare`, `Answers` | structural equality and ordering code, string comparison; all answers that code can give |
| `Whole` | control flow and lowered expressions together |
| `ArtJit`, `ArtInsert` | matching in the radix trie and its specialisation to branch code; inserting routes into it |
| `Paths`, `Longest`, `Params`, `RouteSelect` | canonical paths and segments, longest-prefix selection, parameters and ranks, byte-prefix or segment-aware dispatch |
| `SegmentTrie`, `Dispatch` | the segment trie and its search; from registered routes to the generated matcher |
| `Readiness` | which types have a run-time carrier |
| `Lexer` | tokens, and rendering them back |
| `Chunked`, `ChunkGrammar` | the incremental chunked-body decoder; the byte streams it accepts |
| `Ring` | the access-log ring between one producer and one consumer |
| `Regex` | lifetime of compiled regexes and the scratch cache |

## What is taken as given

- The analyser numbers locals apart (`src/compiler/analyze.cc:3685-3694`), refuses
  a wait together with a for-loop (`src/compiler/analyze.cc:13800-13803` and
  `14053-14057`), and ends the match of a guard with one wildcard arm.
- A route's local initialisers are fixed functions of the request. The lowering
  emits them in the first block only (`src/compiler/lower_rir.cc:3293-3317`), and
  the model gives their values to every invocation, resumed ones included.
- The order of the ring's atomic operations is that of their acquire and release
  marks; a load may return any value between what was last seen and the present
  one, and copies of an entry are torn in two.
- The mutex of a regex handle is held by one thread at a time and released by the
  wait in the same step; wake-ups may be spurious.
- A variant's payload slots have one type each, as the lowering demands
  (`src/compiler/lower_rir.cc:2826-2878`), and no optional holds an optional. Behind
  nil lies zero in a number's slot and the empty string in a string's
  (`src/jit/codegen.cc:1057-1076`); in any other slot it is arbitrary bits of the
  slot's type, taken to be the same at every read.
- No pool of trie nodes is exhausted while routes are inserted.
- Bytes are modelled as characters where strings are compared.

## Findings

Five promises hold only under a condition, and the condition is proved exact.

- Comparing variants. The emitted code looks at the left tag alone. Against a case
  with a payload in the same slot it compares the payloads and not the tags
  (`Compare.VariantEqExact`, `Compare.VariantOrdExact`; `Compare.SharedSlotCompares`
  is an input). Against any other case it compares the payload with what lies behind
  nil: a number with zero and a string with the empty string, so that it is wrong
  exactly for those two (`Answers.NumberAgainstNone`, `Answers.TextAgainstNone`), any
  other payload with undefined bits (`Answers.BoolAgainstNone`,
  `Answers.UndefinedBitsDecide`). `Answers.EqExact` and `Answers.OrdExact` say for
  every pair of values of every shape whether the code is right on all their
  carriers, by a condition on the values alone.
- A local bound by a guard over a value that may be nil as well as an error gets
  the bare payload, or what lies behind nil (zero, the empty string or undefined
  bits), although it is flagged as an optional (`Carriers.GuardBoundLosesNil`, `Carriers.GuardBoundUnwrapsPresent`). The
  carrier is right exactly when the value may not be nil (`Carriers.GuardBoundExact`).
- Where the selector does not ask for the segment trie, byte-prefix dispatch still serves
  requests that continue a route's last segment (`RouteSelect.ContinuedSegmentDiffers`),
  and paths with empty segments are one path to the segment trie and several to
  byte-prefix dispatch (`RouteSelect.SlashesDiverge`; `RouteSelect.EmptySegmentDiverges`
  is an input). `RouteSelect.AgreesExactly` says exactly for which requests the two
  dispatchers select the same route. A path with a parameter overlaps with nothing
  and still needs the segment trie (`RouteSelect.ParamDiffers`), which is the other
  half of the selector's test.
- On registered paths as requests they therefore agree exactly when no route with
  other slashes comes first, and always without empty segments
  (`RouteSelect.DispatchAgrees`).
- A regex handle is freed while a caller is still being refused if that caller takes
  the mutex after the check (`Regex.FreedUnderCaller`). A run never touches the freed
  handle exactly when the mutex is free at that moment and no scan begins afterwards
  (`Regex.FreedExactly`); it is enough that callers stop before freeing starts
  (`Regex.QuietFreeIsSafe`).

## Model

| member | source | states |
|---|---|---|
| `Flatten.EvalSubst` | src/compiler/mir_build.cc:645-652 | a value lowered by substituting the bindings of its scope evaluates, outside the scope, to what the source expression evaluates to inside it |
| `Flatten.ScopeBinds` | src/compiler/mir_build.cc:964-984 | lowering the locals of a nested scope one after the other, each in what precedes it, stands for binding them in order; references stay distinct |
| `Flatten.RunFailMatch` | src/compiler/mir_build.cc:1016-1066 | the test and case blocks of a guard's failure match answer with the first arm whose pattern equals the subject, else with the wildcard |
| `Flatten.RunFailBlocks` | src/compiler/mir_build.cc:953-1067 | entered at its first block, the code of a guard failure (term, body with locals, or match) returns the failure's term |
| `Flatten.RunGuardedBlocks` | src/compiler/mir_build.cc:1084-1105 | a row of prelude guards, their failures and the body answer like the guards in order followed by the body |
| `Flatten.RunArm` | src/compiler/mir_build.cc:1361-1440 | a match arm answers with its prelude and body when its arm guard holds and continues at its fall-through target otherwise |
| `Flatten.RunMatchFrom` | src/compiler/mir_build.cc:1258-1440 | deciding from arm k on answers what the match restricted to the arms from k on means, although a failing arm guard jumps backwards to a test block |
| `Flatten.RunLoopMatchFrom` | src/compiler/mir_build.cc:1866-2107 | the same for a match inside a loop body, with its grouped layout of tests, arm guards, preludes, cases and failures, under the loop's bindings |
| `Flatten.RunEndBlocks` | src/compiler/mir_build.cc:2109-2322 | the end of a route, whichever its form, returns the term its control means |
| `Flatten.LayoutRunsSteps` | src/compiler/mir_build.cc:1107-1449 | the whole block graph, entered at any step, does what the steps from there on do in order and what the end means, within as many blocks as there are |
| `Targets.LayoutTargets` | src/compiler/mir_build.cc:1139-1440 | every branch of every block goes to a block of the function, and never to a block at which a wait resumes |
| `Descent.MatchAdvances` | src/compiler/mir_build.cc:1258-1440 | every branch of a match goes forward in a rank, the backward fall-through jumps included |
| `Descent.LoopAdvances` | src/compiler/mir_build.cc:1940-2107 | the same for a match in a loop body |
| `Descent.EndAdvances` | src/compiler/mir_build.cc:2109-2322 | branches of a route's end stay inside it and go forward in its rank |
| `Descent.EdgesAdvance` | src/compiler/mir_build.cc:1107-1449 | every branch of a laid out function goes forward in a rank below the number of blocks, so the graph has no cycle |
| `Descent.EveryBlockEnds` | src/compiler/mir_build.cc:1107-1449 | from any block and in any environment control returns or yields within the number of blocks |
| `MirBuild.GuardFailBlockCount` | src/compiler/mir_build.cc:940-952 | the number reserved for a failure is the number of blocks its code has |
| `MirBuild.ReserveArm` | src/compiler/mir_build.cc:1158-1181 | the indices handed to an arm's guard, prelude, body, failures and branches are where its blocks will be |
| `MirBuild.ReserveMatch` | src/compiler/mir_build.cc:1154-1182 | all arms of a match are reserved back to back behind the tests |
| `MirBuild.ReserveLoopMatch` | src/compiler/mir_build.cc:1779-1826 | the five groups of blocks of a loop match are reserved back to back, each arm at its place in each group |
| `MirBuild.ReserveEnd` | src/compiler/mir_build.cc:1826-1837 | the failures of the steps start right behind the end's blocks |
| `MirBuild.ReserveStepFails` | src/compiler/mir_build.cc:1187-1193 | each guard step's failure is reserved where the failures before it end |
| `MirBuild.ExtendCtx` | src/compiler/mir_build.cc:1849-1865 | extending the bindings local by local gives the scope |
| `MirBuild.NextFailTest` | src/compiler/mir_build.cc:1044-1053 | a failing test goes to the next arm with a pattern, else to the default |
| `MirBuild.MirFunction.EmitFailMatch` | src/compiler/mir_build.cc:1016-1066 | pushes exactly the test and case blocks of a failure match |
| `MirBuild.MirFunction.EmitGuardFail` | src/compiler/mir_build.cc:953-1067 | pushes exactly the failure's blocks, for the place they are pushed at |
| `MirBuild.MirFunction.EmitPreludeGuards` | src/compiler/mir_build.cc:1084-1105 | pushes the remaining prelude guards, each leading to the next and to its own failure |
| `MirBuild.MirFunction.EmitArm` | src/compiler/mir_build.cc:1361-1440 | pushes exactly the arm's blocks at the reserved indices |
| `MirBuild.MirFunction.EmitMatch` | src/compiler/mir_build.cc:1258-1440 | pushes the match's blocks; refuses exactly when the last arm has an arm guard |
| `MirBuild.MirFunction.EmitLoopMatch` | src/compiler/mir_build.cc:1940-2107 | pushes the five groups of a loop match as they were reserved |
| `MirBuild.MirFunction.EmitSteps` | src/compiler/mir_build.cc:1197-1228 | pushes a block per step and records for each wait the state it yields and the block it resumes at |
| `MirBuild.MirFunction.EmitFunction` | src/compiler/mir_build.cc:1139-1449 | builds the whole layout and resume table; succeeds exactly when the end can be lowered |
| `Loops.TermAnswers` | src/compiler/mir_build.cc:1561-1562 | a body marked as terminating answers in every environment, which is what makes one iteration enough |
| `Loops.HasTermMeans` | src/compiler/mir_build.cc:1561-1562 | a body is marked exactly when it has an end, a match, or a loop over some item whose body is marked |
| `Loops.UnrolledBody` | src/compiler/mir_build.cc:1570-1650 | one pass over a loop body, unrolled with its lets and nested loops, answers what the body answers under its bindings |
| `Loops.UnrolledLoop` | src/compiler/mir_build.cc:1543-1653 | an unrolled loop answers what iterating it over its items answers, nested loops included |
| `Loops.UnrolledLoopFresh` | src/compiler/mir_build.cc:1504-1530 | every unrolled step carries bindings with distinct references that its failure's locals do not reuse |
| `Order.Settle` | src/compiler/mir_build.cc:1129-1137 | one insertion moves the step down past every later one and past nothing else |
| `Order.SortSteps` | src/compiler/mir_build.cc:1677-1688 | the in-place insertion sort leaves the same steps ascending by position, equal positions in collection order |
| `Order.AscendingUnique` | src/compiler/mir_build.cc:1677-1688 | there is only one ascending arrangement of the same steps |
| `Order.SortedIsSource` | src/compiler/mir_build.cc:1452-1457 | sorting the steps collected kind by kind gives the statements back in source order, each loop's steps together and in order |
| `Routes.GuardsAndWaitsFormed` | src/compiler/mir_build.cc:1107-1112 | guards and waits in any number and order, with failures that bind no locals, are within reach of `RouteRefines` |
| `Routes.StepsMeanSource` | src/compiler/mir_build.cc:1107-1228 | running the steps of a route with waits is running its statements top to bottom |
| `Routes.CutRuns` | src/compiler/mir_build.cc:1690-1701 | cutting the steps at the first one that always answers loses no answer |
| `Routes.UnitsMeanSource` | src/compiler/mir_build.cc:1463-1701 | running the unrolled steps of a route with loops is running its statements top to bottom |
| `Routes.LooplessRefines` | src/compiler/mir_build.cc:1107-1449 | `RouteRefines` for routes without loops, waits included |
| `Routes.LoopedRefines` | src/compiler/mir_build.cc:1463-2334 | `RouteRefines` for routes with loops |
| `Routes.RouteRefines` | src/compiler/mir_build.cc:842-2904 | for every request, start frame and sequence of events, driving the planned handler gives exactly the suspensions and the reply of the source statements top to bottom |
| `Routes.AwaitedGuard` | docs/wait.md:97-107 | for a wait followed by a guard on `ok`, the compiled handler suspends with the kind's number and replies with the failure if and only if the event's result is negative |
| `RouteBuild.UnitList.AddBody` | src/compiler/mir_build.cc:1570-1650 | appends exactly the unrolled body, numbered in order, at the loop's position |
| `RouteBuild.UnitList.AddLoop` | src/compiler/mir_build.cc:1543-1653 | appends exactly the unrolled loop |
| `RouteBuild.WaitSteps` | src/compiler/mir_build.cc:1113-1137 | collecting guards and waits and sorting them gives the statements in source order |
| `RouteBuild.LoopUnits` | src/compiler/mir_build.cc:1654-1688 | collecting guards and unrolled loops and sorting them gives the statements in source order |
| `RouteBuild.Cut` | src/compiler/mir_build.cc:1690-1701 | keeps the guards up to the first step that ends the route and takes that step as the end |
| `RouteBuild.BuildRoute` | src/compiler/mir_build.cc:842-2904 | from the analyser's separate lists of guards, waits and loops, builds exactly the handler that `RouteRefines` is about; refuses exactly when the end cannot be lowered |
| `Meaning.TailMeans` | src/compiler/mir_build.cc:2109-2160 | a route's `if` ends with its first term when its condition is true, else with its second |
| `Meaning.GuardsMean` | src/compiler/mir_build.cc:1084-1105 | the first guard that is not true answers with its own failure, and the body when all are |
| `Meaning.MatchMeans` | src/compiler/mir_build.cc:1258-1440 | the first arm that equals the subject and whose guard is true is taken, the last one if none does |
| `Meaning.FailMatchMeans` | src/compiler/mir_build.cc:1016-1066 | a failure's match takes the first arm that is the wildcard or equals the subject |
| `Meaning.LoopMatchMeans` | src/compiler/mir_build.cc:1866-2107 | the same for a match in a loop, with the arm's own locals bound |
| `Meaning.ScopeMeans` | src/compiler/mir_build.cc:964-984 | locals of a scope are bound in order, each seeing those before it |
| `Meaning.LoopMeans` | src/compiler/mir_build.cc:1543-1653 | a loop answers with the first item for which its body does |
| `Abi.WordFields` | include/rut/jit/handler_abi.h:68-87 | the five fields packed into a word are read back unchanged |
| `Abi.WordLayout` | include/rut/jit/handler_abi.h:36-87 | the words of a status, a forward and a suspension, byte by byte |
| `Abi.TermRoundTrip` | src/jit/codegen.cc:1195-1271 | packed into an immediate, repacked into a word and unpacked, a terminator gives its own reply (status codes modulo 65536) |
| `Abi.YieldRoundTrip` | src/jit/codegen.cc:1272-1280 | the same for a suspension's kind, 32-bit payload and next state |
| `Handler.SlotHoldsI32` | src/jit/codegen.cc:1132-1154 | a signed 32-bit value widened into a slot is read back unchanged |
| `Handler.StoreKeepsHolding` | src/compiler/lower_rir.cc:3319-3344 | storing a wait's event leaves the events of earlier waits and all other slots as they were |
| `Handler.ReadsOwnEvent` | src/compiler/lower_rir.cc:1512-1592 | a wait's fields read that wait's own event however many waits came after it, falling back to the latest event where the frame has no such slot |
| `Handler.EmitWaitField` | src/compiler/lower_rir.cc:1513-1593 | emits the loads, comparisons and selects of a field; refuses exactly a wait that is not there and a field without a name |
| `Handler.FieldCodeReads` | src/compiler/lower_rir.cc:1513-1593 | run on a frame, that code gives from the two slots k and r: r not negative for `ok`, k a receive and r zero for `eof`, k the wanted number for a kind |
| `Handler.ReadsOwnField` | src/compiler/lower_rir.cc:1513-1593 | so the code of a field gives that field of the wait's own event however many waits came after it |
| `Handler.TakesIsTest` | src/compiler/lower_rir.cc:2495-2640 | a branch computed from the slots goes as the expressions over the delivered events say |
| `Handler.KindCodesAre` | include/rut/jit/handler_abi.h:21-34 | the numbers of the wait kinds |
| `Handler.ResumesAfterWait` | src/compiler/mir_build.cc:1213-1222 | state r of the resume table is the block right after the wait that yielded r |
| `Handler.WaitIsResumed` | src/compiler/mir_build.cc:1213-1222 | every wait has its entry in the table |
| `Handler.ExecIsRun` | src/compiler/lower_rir.cc:3319-3344 | slots are written only on entering an invocation, so executing the handler is running its blocks in one fixed environment |
| `Handler.InvocationRuns` | src/jit/codegen.cc:1361-1391 | one invocation runs the steps from where its state resumes, reading every earlier wait's event, and leaves those events held |
| `Handler.RouteByExits` | src/jit/codegen.cc:1361-1391 | a route's meaning is the meaning up to the first suspension followed by the meaning from there on |
| `Handler.DriveRefines` | src/jit/codegen.cc:1361-1417 | re-entering the handler with each event gives the yields and the reply of the steps taken top to bottom |
| `Carriers.ExecTraces` | src/jit/codegen.cc:1057-1154 | executing straight-line code gives each result as its instruction computes it from earlier ones |
| `Carriers.OrRuns` | src/compiler/lower_rir.cc:1683-1761 | the code of `or` yields the left value when present and the right one when it is nil or an error |
| `Carriers.IfElseLowers` | src/compiler/lower_rir.cc:1762-1914 | a conditional brings both branches to its own carrier and selects between them |
| `Carriers.WrapRuns` | src/compiler/lower_rir.cc:1806-1907 | a branch of any kind, nil and error literals included, wrapped to a wider carrier stands for the same value |
| `Carriers.ErrorRuns` | src/compiler/lower_rir.cc:2310-2395 | an error literal becomes an error next to no payload, with its code, message and place |
| `Carriers.ErrorLocalLeaves` | src/compiler/lower_rir.cc:2310-2395 | the executed code of a local with an error literal leaves the literal's case, or its code where it has none, its message, file, function and line, and no payload |
| `Carriers.ErrorBranchLeaves` | src/compiler/lower_rir.cc:1813-1850 | so does a conditional whose taken branch is an error literal, without file and function |
| `Carriers.ErrorFieldsRead` | src/compiler/lower_rir.cc:1624-1648 | reading the fields of such a local gives the case or the code, the message, the file, the function and the line |
| `Carriers.MemberOfBuild` | src/compiler/lower_rir.cc:1649-1680 | a member of a struct that was just built is the part it was built from |
| `Carriers.NoErrorRuns` | src/compiler/lower_rir.cc:1915-1942 | the no-error check holds exactly when there is no error |
| `Carriers.HasValueRuns` | src/compiler/lower_rir.cc:1943-1996 | the has-value check holds exactly when the value is present |
| `Carriers.ValueRuns` | src/compiler/lower_rir.cc:1997-2036 | unwrapping a present value gives that value |
| `Carriers.MissingRuns` | src/compiler/lower_rir.cc:2037-2085 | an absence carried over to another carrier stays the same nil or the same error |
| `Carriers.ErrorFieldRuns` | src/compiler/lower_rir.cc:1624-1648 | reading a field of an error that is there gives that field |
| `Carriers.MemberRuns` | src/compiler/lower_rir.cc:1649-1680 | reading a field of a struct gives that field |
| `Carriers.CustomRuns` | src/compiler/lower_rir.cc:2334-2386 | an error literal of a user-defined struct is carried as the error inside it, its other fields evaluated and dropped |
| `Carriers.LowerRuns` | src/compiler/lower_rir.cc:1163-2228 | lowered code of any expression computes the carrier of what the expression denotes |
| `Carriers.LocalsRun` | src/compiler/lower_rir.cc:2230-2480 | initialised in order, every local holds the carrier of its own flags |
| `Carriers.LoweringCorrect` | src/compiler/lower_rir.cc:3295-3317 | locals and an expression after them, lowered and executed, yield the carrier of the denotation, whatever undefined bits nil optionals hold |
| `Carriers.OrDefault` | src/compiler/lower_rir.cc:1683-1761 | the executed code of an input with a literal default yields the input when it is there and the literal when it is nil or an error |
| `Carriers.FlagsSound` | src/compiler/lower_rir.cc:2275-2290 | a value is nil or an error only where the flags say it may be |
| `Carriers.LiteralsAccepted` | src/compiler/lower_rir.cc:1762-1914 | which conditionals, defaults and locals with nil and error literals are typed, and which are not |
| `Carriers.GuardedDefined` | src/compiler/lower_rir.cc:1997-2036 | where each unwrap is guarded by its check, the denotation is defined, so no result depends on undefined bits |
| `Carriers.GuardBoundExact` | src/compiler/analyze.cc:3651-3683 | what a guard binds, present or nil, is carried as the local's flags need it if and only if the bound expression cannot be nil |
| `Carriers.GuardBoundLosesNil` | src/compiler/analyze.cc:3651-3683 | at an input that is nil and may be an error the local is bound to what lies behind nil, whatever it is, and does not stand for nil |
| `Carriers.GuardBoundUnwrapsPresent` | src/compiler/analyze.cc:3651-3683 | at the same input, present, the local is bound to the bare value and not to an optional |
| `Carriers.GuardEstablishes` | src/compiler/analyze.cc:7215-7255 | a guard statement that was passed makes a later unwrap of the guarded value guarded |
| `Carriers.Builder.Materialize` | src/compiler/lower_rir.cc:1163-2228 | the recursive emitter appends exactly the lowered code, operands first, and returns where the result is |
| `Carriers.Builder.MaterializeLocal` | src/compiler/lower_rir.cc:2230-2480 | the emitter of a local's initialiser appends exactly the lowered code, for every combination of flags |
| `Carriers.Builder.EmitOr` | src/compiler/lower_rir.cc:1683-1761 | appends the code of `or` in the source's instruction order |
| `Carriers.Builder.EmitWrap` | src/compiler/lower_rir.cc:1806-1907 | appends the wrapping of a conditional's branch |
| `Compare.EqRuns` | src/compiler/lower_rir.cc:676-871 | equality code computes the recursive comparison of the two values, for every shape |
| `Compare.OrdRuns` | src/compiler/lower_rir.cc:908-1124 | ordering code computes the recursive comparison, for `<` and `>` |
| `Compare.PlainShapesAgree` | src/compiler/lower_rir.cc:676-871 | shapes without payload variants meet the condition of the next rows on all values |
| `Compare.EqStructural` | src/compiler/lower_rir.cc:676-871 | where tags agree along the compared values, the code answers equality of the source values |
| `Compare.VariantEqExact` | src/compiler/lower_rir.cc:807-868 | between cases with payloads of one shape the code answers whether the payloads are equal, so it is right if and only if the tags are equal or the payloads differ |
| `Compare.SharedSlotCompares` | src/compiler/lower_rir.cc:1292-1367 | two cases with the same payload type and equal payloads compare equal |
| `Compare.OrdStructural` | src/compiler/lower_rir.cc:908-1124 | where tags agree the code answers the lexicographic order of the source values |
| `Compare.LessMeans` | src/compiler/lower_rir.cc:908-1124 | that order is: numbers by size, strings by bytes, products by the first part that differs, cases by tag and then by payload |
| `Compare.VariantOrdExact` | src/compiler/lower_rir.cc:1054-1122 | between such cases the code answers the order of the payloads, so it is right if and only if the tags are equal or the payloads are ordered as the tags |
| `Compare.Trichotomy` | src/compiler/lower_rir.cc:908-1124 | of any two values of an ordered shape exactly one of less, equal and greater holds |
| `Compare.LessTransitive` | src/compiler/lower_rir.cc:908-1124 | the order is transitive on nested structs, tuples and variants |
| `Compare.ComparisonCorrect` | src/compiler/lower_rir.cc:676-1124 | comparison code appended to any code that computes the two values computes the modelled comparison, and where tags agree answers equality and order of the source values |
| `Answers.Sound` | src/compiler/lower_rir.cc:676-1124 | whatever the code answers on carriers the lowering builds is an answer the values allow |
| `Answers.Witness` | src/compiler/lower_rir.cc:1292-1420 | every answer the values allow is given on some carriers the lowering can build for them |
| `Answers.VariantBuilt` | src/compiler/lower_rir.cc:1292-1391 | the code that constructs a case, executed, is a carrier the lowering can build for its value: tag, payload in the slot of its kind, nil in the others |
| `Answers.EqExact` | src/compiler/lower_rir.cc:676-871 | on all carriers of two values of any accepted shape the equality code is right if and only if the values are equal or cannot be confused, a condition on the values alone |
| `Answers.OrdExact` | src/compiler/lower_rir.cc:908-1124 | the same for the ordering code of an ordered shape: right if and only if the values leave it no other answer |
| `Answers.UndefinedBitsDecide` | src/compiler/lower_rir.cc:831-868 | for a payload that is neither a number nor a string against a case without one in its slot, carriers of the same two values get the answer equal and any other answer the payload leaves room for |
| `Answers.NumberAgainstNone` | src/jit/codegen.cc:1057-1076 | for a number against a case without a payload the equality code is right if and only if the number is not zero |
| `Answers.TextAgainstNone` | src/jit/codegen.cc:1057-1076 | for a string against such a case it is right if and only if the string is not empty |
| `Answers.BoolAgainstNone` | src/jit/codegen.cc:1057-1076 | for a truth value against such a case it is not right on all carriers, whichever the value |
| `Whole.TestCorrect` | src/compiler/lower_rir.cc:2164-2228 | the code of a leaf (its locals, its operands and the comparison) computes what the leaf's expressions mean |
| `Whole.CompiledRouteCorrect` | src/compiler/lower_rir.cc:3295-3361 | with every leaf computed by its lowered code, driving the handler gives the suspensions and the reply of the statements top to bottom, every leaf being what its expressions mean |
| `Compare.StrEq` | src/jit/runtime_helpers.cc:367-373 | true exactly for equal strings |
| `Compare.StrCmp` | src/jit/runtime_helpers.cc:375-386 | -1, 0 or 1: negative exactly for a proper prefix or a smaller byte at the first difference, positive exactly for the converse, zero exactly for equal strings |
| `Compare.StrBelowIs` | src/jit/runtime_helpers.cc:375-386 | the order of strings is: a proper prefix, or the smaller byte at the first difference |
| `Compare.StrTotal` | src/jit/runtime_helpers.cc:375-386 | that order is total and strict |
| `Compare.EmitEq` | src/compiler/lower_rir.cc:676-871 | the emitter appends exactly the equality code |
| `Compare.EmitOrd` | src/compiler/lower_rir.cc:908-1124 | the emitter appends exactly the ordering code |
| `ArtJit.CompareEdge` | src/runtime/route_art.cc:559-565 | the byte loop decides whether the edge is what the path continues with |
| `ArtJit.Match` | src/runtime/route_art.cc:527-681 | the descent loop computes the recursive descent, for every path and method |
| `ArtJit.DescendDeepest` | src/runtime/route_art.cc:527-681 | a descent answers with the deepest node along the path that serves the method, its own route before the one for any method, else with what came before |
| `ArtJit.InterpretDeepest` | src/runtime/route_art.cc:105-110 | from the root: the deepest serving node or the invalid route; unknown methods are always invalid |
| `ArtJit.Children` | src/jit/art_jit_codegen.cc:218-262 | the children gathered from any of the four node sizes are those a lookup finds |
| `ArtJit.Emitter.EmitEdge` | src/jit/art_jit_codegen.cc:189-205 | the emitted compares let exactly the paths through that have the edge, without a load past the end |
| `ArtJit.Emitter.EmitTerminalPickup` | src/jit/art_jit_codegen.cc:128-183 | the emitted stores update the best route as the interpreter does, for each method slot |
| `ArtJit.Emitter.EmitChildDescent` | src/jit/art_jit_codegen.cc:189-212 | the code of a child returns what descending into it returns |
| `ArtJit.Emitter.EmitNodeDispatch` | src/jit/art_jit_codegen.cc:218-290 | the code of a node returns what descending from it returns |
| `ArtJit.Emitter.EmitMethodToSlot` | src/jit/art_jit_codegen.cc:299-343 | known method keys reach the body with their slot, others return invalid |
| `ArtJit.Specialize` | src/jit/art_jit_codegen.cc:347-404 | for every path, key and initial register contents the generated function returns what matching in the trie returns, and never faults |
| `ArtInsert.AddChildFinds` | src/runtime/route_art.cc:143-222 | with the node growing through its four sizes, the new child is found under its byte and every other byte finds what it found |
| `ArtInsert.TailIs` | src/runtime/route_art.cc:372-437 | the node moved behind a split, its children added one by one whatever its size, has the same routes and finds the same children |
| `ArtInsert.SplitHolds` | src/runtime/route_art.cc:359-480 | splitting an edge changes nothing of what is held below it |
| `ArtInsert.SplitHasRoom` | src/runtime/route_art.cc:463-503 | after a split the rest of the path adds at most one leaf without growing the node, so the remembered slot, which is that of the node above, is not written |
| `ArtInsert.InsertGood` | src/runtime/route_art.cc:224-511 | insertion keeps every child filed once under the first byte of its edge |
| `ArtInsert.InsertHolds` | src/runtime/route_art.cc:224-511 | for every word and slot, afterwards the trie holds the new route for its own path and slot unless one was held, and otherwise what it held |
| `Paths.CanonIsCanonical` | include/rut/runtime/route_canon.h:54-61 | finalising takes off all outer slashes and nothing else |
| `Paths.FinalizePath` | include/rut/runtime/route_canon.h:54-61 | the two loops compute the canonical path |
| `RouteSelect.IsStrictBytePrefix` | src/runtime/route_select.cc:15-21 | true exactly for proper prefixes |
| `RouteSelect.HasBoundarySensitiveOverlap` | src/runtime/route_select.cc:54-74 | true exactly when some path ends inside a segment of another, in either order of registration |
| `RouteSelect.PathHasParamSegment` | src/runtime/route_select.cc:40-52 | true exactly when some segment of the path is a parameter |
| `RouteSelect.NeedsSegmentAware` | src/runtime/route_select.cc:76-81 | true exactly when some path has a parameter or there is an overlap |
| `RouteSelect.UnneededIsSelection` | src/runtime/route_select.cc:76-81 | where that is false, what the segment trie chooses is longest-prefix selection by segments |
| `RouteSelect.ParamDiffers` | include/rut/runtime/route_table.h:567-572 | a lone parameter overlaps with nothing, matches no literal segment by bytes and every one by segments |
| `RouteSelect.OverlapExact` | src/runtime/route_select.cc:54-74 | no overlap is reported if and only if, among the registered paths, byte prefix and segment prefix coincide |
| `Longest.SelectsBest` | src/runtime/route_trie.cc:214-234 | what is selected matches and precedes every other match: longer keys first, then the method's own, then the first registered |
| `Longest.DeepestIsSelected` | src/runtime/route_trie.cc:240-285 | the deepest key along a request that answers for the method is the selection |
| `RouteSelect.AgreesExactly` | src/runtime/route_select.cc:54-81 | without a reported overlap, longest-prefix selection by bytes and by segments give the same route for any request and method if and only if no route for the method ends inside a segment of the request and none with other slashes precedes every byte prefix of it |
| `RouteSelect.TidyAgrees` | src/runtime/route_select.cc:54-81 | without empty segments they agree if and only if no route for the method ends inside a segment of the request |
| `RouteSelect.DispatchAgrees` | src/runtime/route_select.cc:54-81 | on a registered path as the request they agree if and only if no route with other slashes comes first, and always without empty segments |
| `RouteSelect.ContinuedSegmentDiffers` | include/rut/runtime/route_select.h:35-41 | a lone route overlaps with nothing and is still selected by bytes, and only by bytes, for a request that continues its last segment |
| `RouteSelect.SlashesDiverge` | src/runtime/route_trie.cc:26-44 | for any two registered paths with the same segments, neither a byte prefix of the other, no overlap is reported, and for the second as the request bytes select the second and the trie the first |
| `RouteSelect.EmptySegmentDiverges` | include/rut/runtime/route_table.h:197-205 | two such paths that may be registered |
| `Paths.SegmentsPrefix` | src/runtime/route_trie.cc:26-44 | on paths without empty segments, prefix segment by segment is prefix ending at a segment boundary |
| `Paths.PrefixBySegments` | src/runtime/route_trie.cc:26-44 | on any paths, a canonical byte prefix has a prefix of the segments if and only if it does not end inside one |
| `Paths.RanksAlike` | src/runtime/route_trie.cc:214-234 | among prefixes that end at boundaries, length in bytes and number of segments rank alike |
| `Paths.SegmentsOfCanon` | src/runtime/route_trie.cc:26-44 | outer slashes do not change the segments |
| `SegmentTrie.Tokenize` | src/runtime/route_trie.cc:26-44 | the loop splits a path into its segments, empty ones dropped |
| `Params.MaskOrders` | src/runtime/route_trie.cc:275-283 | of two paths of one length with literals in the same places up to one, the one with a literal there has the greater mask |
| `Params.SameRankSameKinds` | src/runtime/route_trie.cc:213-234 | two paths of up to 64 segments that fit a request with the same rank differ in parameter names only |
| `Params.ChosenOnce` | src/runtime/route_trie.cc:213-234 | the choice (rank, then registration for one path, then the parameter seen first) is unique |
| `Params.ChosenIsBest` | src/runtime/route_trie.cc:213-234 | stated on the segments alone: the chosen route serves, no other that serves is longer, has more literal segments at that length, or a literal at the first place where the two differ in kind; with literals in the same places the method's own wins, and for one path and method the first registered |
| `Params.NoneChosen` | src/runtime/route_trie.cc:213-234 | no route is chosen if and only if none serves |
| `Params.LiteralChosen` | src/runtime/route_trie.cc:168-290 | without parameters the choice is longest-prefix selection |
| `Params.CapturesEach` | src/runtime/route_trie.cc:258-272 | each parameter captures, in order, the request's segment at its place |
| `Params.CapHarmless` | src/runtime/route_trie.cc:185-192 | cutting a request to 64 segments changes neither the choice nor the captures |
| `SegmentTrie.Segmented.FindChild` | src/runtime/route_trie.cc:57-72 | finds the child for a segment if the trie has a node for that path, and none otherwise |
| `SegmentTrie.Segmented.Insert` | src/runtime/route_trie.cc:78-156 | holds the route for its path and slot unless an earlier one is held, changes nothing else that is held, and adds nodes along that path only, behind those there were |
| `SegmentTrie.VisitsFit` | src/runtime/route_trie.cc:246-284 | the search visits only nodes whose path fits the request |
| `SegmentTrie.FitsVisited` | src/runtime/route_trie.cc:246-284 | and it visits all of them |
| `SegmentTrie.VisitsSorted` | src/runtime/route_trie.cc:254-283 | among nodes of one depth it visits first the one that goes on with a literal where they part, or with the older parameter |
| `SegmentTrie.Segmented.Match` | src/runtime/route_trie.cc:169-290 | the loop over the stack ends, having considered the visited nodes in that order |
| `SegmentTrie.FoundChosen` | src/runtime/route_trie.cc:169-290 | in a trie that holds the registered routes the search ends with the route chosen among them, its rank and its captures |
| `SegmentTrie.Dispatch` | src/runtime/route_trie.cc:78-290 | registering routes in order and matching answers with the one chosen route and what its parameters capture; without parameters it is the one `BySegments` selects |
| `Dispatch.InterpretSelects` | src/runtime/route_art.cc:527-681 | in a radix trie that holds the registered routes, matching is longest-prefix selection among them |
| `Dispatch.Register` | include/rut/runtime/route_table.h:258-268 | inserting the routes one after the other builds a trie that holds them, the first for each path and method |
| `Dispatch.Compile` | src/jit/art_jit_codegen.cc:347-404 | the code generated for such a trie answers every request and method with the route selected by bytes |
| `Dispatch.Build` | src/jit/art_jit_codegen.cc:347-404 | so does the code generated from the registered routes themselves |
| `Dispatch.CodeAgreesExactly` | src/runtime/route_select.cc:54-81 | where the segment trie is not asked for, that code answers with the route the trie would choose if and only if no route ends inside a segment of the request and none with other slashes comes first |
| `Readiness.DeclMonotone` | src/compiler/mir_build.cc:96-214 | a type that is ready stays ready when more types are |
| `Readiness.ShapeReadyMeans` | src/compiler/mir_build.cc:96-119 | a shape is carried if and only if it is concrete and a scalar, a method, a flagged struct or variant, or a tuple of carried shapes |
| `Readiness.SlotReadyMeans` | src/compiler/mir_build.cc:168-214 | a slot is carried if and only if it is an error, its shape is carried and not a method, or without a shape it is a scalar or a flagged struct or variant |
| `Readiness.ScalarsReady` | src/compiler/mir_build.cc:143-167 | a declaration of errors and scalars is ready if and only if it is no open generic and its arguments are known |
| `Readiness.MethodSlotNeverReady` | src/compiler/mir_build.cc:168-214 | a declaration with a bare method or an unknown type in a slot is never ready |
| `Readiness.DerivedInClosed` | src/compiler/mir_build.cc:792-836 | whatever is derived in any number of rounds is in every closed set of flags |
| `Readiness.AnyOrder` | src/compiler/mir_build.cc:792-836 | flags that are closed and were derived are the least fixpoint, whatever the order of declarations |
| `Readiness.UnfoundedNeverReady` | src/compiler/mir_build.cc:792-836 | types that need one another in a cycle, or an open generic, are never ready |
| `Readiness.StuckUnfounded` | src/compiler/mir_build.cc:96-214 | any set of declarations each of which is an open generic or needs a member of the set, through tuple slots too, is unfounded |
| `Readiness.CycleNeverReady` | src/compiler/mir_build.cc:792-836 | no declaration on a cycle of structs and variants, of any length, is ever ready |
| `Readiness.RingOfStructs` | src/compiler/mir_build.cc:169-195 | structs each with a field of the next one's type, round to the first, are such a cycle |
| `Readiness.TupleNeeds` | src/compiler/mir_build.cc:113-119 | a tuple needs what any of its elements needs |
| `Readiness.ReadyExactly` | src/compiler/mir_build.cc:792-836 | at the fixpoint a declaration is ready if and only if it is in no unfounded set |
| `Readiness.DeclIsReady` | src/compiler/mir_build.cc:96-214 | the loop over fields or cases decides readiness of a declaration |
| `Readiness.SweepStructs` | src/compiler/mir_build.cc:797-814 | a sweep marks only what is derivable, reports a change exactly when it marked something, and otherwise has reached closure |
| `Readiness.ComputeReady` | src/compiler/mir_build.cc:792-836 | sweeping until nothing changes ends, with the least fixpoint |
| `Lexer.TakenIsGood` | src/compiler/lexer.cc:74-347 | every token the lexer takes has a well-formed text of its kind |
| `Lexer.RenderedNext` | src/compiler/lexer.cc:74-347 | a well-formed token followed by a space or nothing lexes to itself |
| `Lexer.LexRendered` | src/compiler/lexer.cc:74-347 | rendering any well-formed tokens with single spaces and lexing gives the tokens back |
| `Lexer.RespacingStable` | src/compiler/lexer.cc:74-347 | for every source that lexes, respacing its tokens changes nothing |
| `Lexer.KeywordsAre` | src/compiler/lexer.cc:23-65 | a word is the keyword one of the following five lists gives it, and an identifier if and only if none does |
| `Lexer.ItemWords` | src/compiler/lexer.cc:24-31 | each of these keywords comes from its own word, and an identifier is none of the words |
| `Lexer.TypeWords` | src/compiler/lexer.cc:32-38 | the same for modules and types |
| `Lexer.FlowWords` | src/compiler/lexer.cc:39-47 | the same for control flow, values and peers |
| `Lexer.RouteWords` | src/compiler/lexer.cc:52-57 | the same for routes |
| `Lexer.MethodWords` | src/compiler/lexer.cc:58-64 | the same for request methods, in either case |
| `Lexer.UnderscoreAlone` | src/compiler/lexer.cc:151-165 | a lone underscore, and nothing else, is an underscore token |
| `Lexer.PunctuationIs` | src/compiler/lexer.cc:285-333 | which character gives which punctuation, and that no other does |
| `Lexer.AlphabetsAre` | src/compiler/lexer.cc:7-21 | the spaces, digits, letters and word characters |
| `Lexer.CommentEnds` | src/compiler/lexer.cc:94-102 | a comment goes up to the end of its line and no further |
| `Lexer.SpaceSkipped` | src/compiler/lexer.cc:83-92 | spaces, tabs and line ends stand for nothing |
| `Lexer.RunsExactly` | src/compiler/lexer.cc:151-172 | words and digits go as far as they can |
| `Lexer.UnitExactly` | src/compiler/lexer.cc:173-205 | a duration unit is taken if and only if one of the four follows that no longer word goes on from |
| `Lexer.BodyExactly` | src/compiler/lexer.cc:212-245 | a string ends at the first quote before which an even number of backslashes stands, unless a line ends before it |
| `Lexer.ScanBody` | src/compiler/lexer.cc:216-238 | the scan of a quoted body stops at the first quote that no backslash escapes, or fails |
| `Lexer.ScanNumber` | src/compiler/lexer.cc:167-211 | digits and the longest unit that is not part of a longer word |
| `Lexer.LexSource` | src/compiler/lexer.cc:74-347 | the single-pass loop computes the recursive tokenisation, or the first fault |
| `Chunked.Parser.Advance` | src/runtime/chunked_parser.cc:16-155 | one byte outside data takes the step of the byte machine |
| `Chunked.Parser.Feed` | src/runtime/chunked_parser.cc:12-160 | what a call consumes and hands out is what the byte machine consumes and puts out; it makes progress, and stops only for data, the end, an error or more input |
| `Chunked.DecodeAfter` | src/runtime/chunked_parser.cc:12-160 | decoding can be suspended after any byte and resumed |
| `Chunked.DecodePieces` | src/runtime/chunked_parser.cc:12-160 | output, consumed length, final state and verdict do not depend on how the stream is cut into pieces |
| `Chunked.SizeFits` | src/runtime/chunked_parser.cc:20-50 | a size is accepted if and only if it fits 32 bits, whatever its leading zeros |
| `Chunked.SizeOverflows` | src/runtime/chunked_parser.cc:20-50 | a size that does not fit is an error before its digits end, with no output |
| `Chunked.ChunkLeads` | src/runtime/chunked_parser.cc:12-160 | an encoded chunk, extensions included, yields its data and leads back to the start |
| `Chunked.EndingLeads` | src/runtime/chunked_parser.cc:12-160 | a last chunk with any trailers leads to completion |
| `Chunked.RoundTrip` | src/runtime/chunked_parser.cc:12-160 | decoding an encoded body followed by anything gives its data and stops right behind it |
| `ChunkGrammar.HexAlphabets` | src/runtime/chunked_parser.cc:5-10 | a digit's value is its place in either alphabet, and no other byte has one |
| `ChunkGrammar.AcceptsExactly` | src/runtime/chunked_parser.cc:12-160 | a stream is accepted with n bytes used and some output if and only if its first n bytes encode that output: extensions, leading zeros and trailers included |
| `ChunkGrammar.ViableExactly` | src/runtime/chunked_parser.cc:12-160 | bytes are not refused if and only if some encoding begins with them |
| `ChunkGrammar.RefusesExactly` | src/runtime/chunked_parser.cc:12-160 | an error comes at the first byte after which no encoding begins so, and more is wanted only while one does |
| `Ring.StepKeeps` | src/runtime/access_log.cc:238-260 | every step of producer or consumer keeps the invariant, with 32-bit positions that wrap |
| `Ring.BoundedFifo` | src/runtime/access_log.cc:238-260 | at every point of every run popped entries are a prefix of accepted ones, at most a ring's worth is unread, and unread entries are intact in their slots |
| `Ring.NeverOverwrites` | src/runtime/access_log.cc:238-249 | no part of a slot copy touches an unread entry |
| `Ring.DropsOnlyWhenFull` | src/runtime/access_log.cc:238-249 | an entry is dropped exactly when the ring is full as far as the producer has seen, and a pop gives up exactly when the consumer has seen nothing unread |
| `Ring.LoadDecidesPush` | src/runtime/access_log.cc:238-249 | with v the value its load returned, a push drops its entry if and only if accepted entries less v fill the ring, and otherwise writes it, whatever happens in between |
| `Ring.LoadDecidesPop` | src/runtime/access_log.cc:251-260 | a pop gives up if and only if the value its load returned is the number of popped entries |
| `Ring.AcceptedArePushed` | src/runtime/access_log.cc:238-249 | accepted are the entries handed to `push`, in order, and every push begun is accepted, dropped or under way |
| `Ring.WaitFree` | src/runtime/access_log.cc:238-260 | in every state of every run producer and consumer each have a step to take, with any value a load may return |
| `Regex.StepKeeps` | src/jit/runtime_helpers.cc:523-542 | every step of scanning threads and the freeing thread keeps the invariant |
| `Regex.LifetimeSafe` | src/jit/runtime_helpers.cc:673-692 | on every run the counter is the number of scans in progress, the database is taken only when there are none, and none starts after closing |
| `Regex.NoLostWakeup` | src/jit/runtime_helpers.cc:673-692 | the freeing thread never sleeps with no scan left and no signal pending |
| `Regex.AdmittedExactly` | src/jit/runtime_helpers.cc:523-533 | a caller gets its scan if and only if freeing has not begun |
| `Regex.EndsOne` | src/jit/runtime_helpers.cc:535-542 | the end of a scan leaves one scan fewer |
| `Regex.TakenExactly` | src/jit/runtime_helpers.cc:673-692 | the freeing thread takes the database if and only if no scan is left, and sleeps otherwise |
| `Regex.NeverStuck` | src/jit/runtime_helpers.cc:523-692 | until the handle is gone some thread can take a step |
| `Regex.FreedExactly` | src/jit/runtime_helpers.cc:673-692 | a run never uses the handle after it is freed if and only if it is freed with its mutex free and no scan is begun afterwards |
| `Regex.FreedUnderCaller` | src/jit/runtime_helpers.cc:523-533 | an interleaving in which the handle is freed while a caller holds its mutex to be refused |
| `Regex.QuietFreeIsSafe` | src/jit/runtime_helpers.cc:673-692 | no scan begun once freeing has started is enough |
| `Regex.SwapRemoveKeeps` | src/jit/runtime_helpers.cc:444-455 | moving the last slot into the gap keeps slots and index inverse to each other and removes one generation |
| `Regex.ScratchCache.RemoveAt` | src/jit/runtime_helpers.cc:444-455 | exactly one entry goes, its scratch space is freed once, all others stay found |
| `Regex.ScratchCache.Get` | src/jit/runtime_helpers.cc:457-472 | a known generation gets its own scratch space, a new one a fresh one; failed allocations leave the cache as it was and leak nothing |
| `Regex.ScratchCache.PruneHandle` | src/jit/runtime_helpers.cc:566-572 | removes the handle's own entry and no other's |

## Left out

- Parsing, name resolution, type checking and generics of the analyser; the model starts from what it hands over.
- Capacity limits of blocks, values, locals and waits: the builder refuses routes beyond them, the model has no limit except the 16-bit state number.
- Refusal of loops with an empty body and of iterables that are not literals; a local array constant is modelled as its items.
- The prologue of yields for routes without a resume table and for decorated waits: no route reaches it, since every route with waits has a resume table.
- `Carriers.LoweringCorrect`: request reads, variant construction and comparisons inside an expression appear as operators that are an arbitrary function of their arguments; `Compare` and `Answers` treat comparisons and construction.
- `Whole.CompiledRouteCorrect`: a leaf carries the locals it reads and compares at its top only; operators that combine leaves and locals that routes bind stay uninterpreted, and operands are defined and neither nil nor an error. A branch that compares a match subject with a pattern compares the two values; its separate forms for errors and variants are not modelled.
- `ArtJit.Specialize`: numbers of the continuation blocks differ from the source's where only the order of creation differs; instruction selection by LLVM is not modelled.
- `ArtJit.Match`: the separate loop for tries of small nodes only takes the same steps and is not modelled apart.
- `ArtInsert.InsertHolds`: the trie is a value and insertion recursive; nodes updated in place, the pools they live in, running out of them and the rollback then are not modelled.
- `SegmentTrie.Segmented.Insert`: the caps on segments, nodes and children, and the rollback when one is reached, are not modelled.
- `SegmentTrie.Segmented.Match`: requests are not cut to 64 segments, which `Params.CapHarmless` shows to make no difference; the stack has no limit.
- `Lexer.LexSource`: line and column of tokens, the end-of-file token and the limit on the number of tokens are not modelled.
- `Chunked.Parser.Feed`: the buffer a caller hands in is a value; its reuse after a call is the caller's.
- `Ring.BoundedFifo`: one producer and one consumer as the source prescribes; flushing entries to a file is not part of this model.
- `Regex.LifetimeSafe`: one handle; the registry of live handles and the list of thread caches add nothing but locking order.
- HTTP parsing, TLS, upstream pools, rate limiting, the event loop, metrics and configuration reload.
