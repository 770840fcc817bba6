# Protocols and transformations of the editor's loader, bundler and command line

This project models six parts of the repository and proves what they promise.

* **The AMD module manager** of `src/vs/loader.js`. `LoaderState.dfy` holds the manager as a value
  with its invariant, `LoaderSteps.dfy` the updates and why each keeps it, `LoaderTheorems.dfy` what
  follows, `LoaderExamples.dfy` two runs in which an error does not go where one might expect, and
  `ModuleManager.dfy` the classes `Module` and `ModuleManager`, whose methods are
  proved against those updates. A script load may finish inside the call that asks for it, so
  defining, resolving, completing and failing re-enter one another. `Graphs.dfy` has the paths and
  cycles this needs; `ModuleId.dfy` is the rewriting of module ids. `Common.dfy` holds what all parts share.
* **Source-map concatenation** of `scripts/playground-server.ts`. `SourceMapFormat.dfy` is a reader
  for mappings as the "Proposed Format" section of the Source Map Revision 3 Proposal gives them,
  `SourceMapConcat.dfy` what adding a source has to do and means, `SourceMapMachine.dfy` what the
  decoder loop computes on any bytes and that this is the same on maps that follow the format,
  `SourceMapLines.dfy` what becomes of lines whatever the bytes,
  `SourceMapBuilder.dfy` the class that does it byte by byte on two `DynamicBuffer`s
  (`DynamicBuffer.dfy`) with the 32-bit encoder of `Vlq.dfy`, and `Bundle.dfy` the traversal that
  decides the order, which `Postorder.dfy` explains for any graph. `SourceMapWriting.dfy` writes
  mappings out and reads them back. The digits are those of section 4 of RFC 4648.
* **RPC streams** of `cli/src/rpc.rs`. `Streams.dfy` is a state machine whose steps are the critical
  sections and single writes, in any interleaving; `StreamTable.dfy` is the map updated in place.
* **RPC dispatch** of `cli/src/rpc.rs` and `cli/src/msgpack_rpc.rs`. `Dispatch.dfy` is a state
  machine of frames, futures, stream registration and stream readers; `Dispatcher.dfy` is the
  dispatcher updated in place. `DispatchTrace.dfy` says what has been sent at any moment from what has
  happened alone: the frames, what callbacks and futures said, what readers read. `StreamFrames.dfy` puts dispatch and streams together, with the frames
  that carry stream data, and `StreamConnection.dfy` does so in place.
* **Frame decoding** of `cli/src/msgpack_rpc.rs`, in `Frames.dfy`.
* **Keyring storage** of `cli/src/auth.rs`, in `Keyring.dfy`, and the **download cache** of
  `cli/src/download_cache.rs` over `cli/src/state.rs`, in `DownloadCache.dfy`.

What the outside world decides is a parameter: which scripts load while they are asked for, what they
define, and which fail (`scripts` and `events`); whether a write, an eviction, a rename or a save
succeeds; whether deserializers and callbacks succeed; the values the shared message-id counter hands
out to a task; which keyring entries cannot be read or written. The msgpack object parser is any
function that needs more on empty input, consumes between one byte and all it is given, and does not
change its mind when more bytes follow.

## Where the code and its documentation differ, or a promise holds only on a condition

* Concatenating source maps is right exactly for sources whose mappings leave their last line before
  the source's content does (`SourceMapConcat.Fits`); otherwise what is added next lands on a wrong
  line or in the last segment (`SourceMapConcat.FitsExactly`, with `SourceMapConcat.ProbeOnWrongLine`
  as an example). For any map at all, line counts stay aligned exactly if it has no more `;` than the
  source has lines (`SourceMapLines.AlignedExactly`).
* An encoded number reads back exactly if it is strictly between -2^30 and 2^30
  (`SourceMapFormat.RoundTripExactly`); 2^30 itself is written as a single zero digit.
* A value stored in the keyring reads back, whatever older entries are lying around, exactly if its
  length is no multiple of the step and its last part does not end in the marker
  (`Keyring.RoundTripExactly`): a full last chunk is marked as continued although nothing follows.
* `_normalizeModuleId` agrees with one pass over a stack for every string, also one with empty
  segments, if `..` is taken to remove neither an empty segment nor another `..`.
* A module that takes over the error of a dependency while it is examined does not tell those already
  waiting for it. They are told exactly if each of them has an error by then
  (`LoaderTheorems.TakeOverTellsExactly`); otherwise they stay incomplete
  (`LoaderExamples.LeftInLimbo`) unless the module's own script fails later on
  (`LoaderExamples.ToldAfterAll`). Between calls, every module is complete exactly if nobody waits for
  such a module or for one that is missing (`LoaderTheorems.AllDoneExactly`).
* The table behind the decoder lists `=` as a 65th entry, and the loop takes it for a final digit zero.
  It is no digit of the format, so mappings that contain one are translated but not `Readable`.
* A load error reaches a module whose factory has run exactly if it is the error of that module's own
  script (`LoaderTheorems.RunAndFailedExactly`, with `LoaderExamples.RunsThenFails` as an example);
  every other module with an error has not run and never will (`LoaderTheorems.NoFactoryAfterError`).
* The search for cycles follows the ids of the three special keys, the examination of dependencies does
  not, so a cycle through a module defined under such a key may or may not be reported
  (`LoaderTheorems.CycleReportIsExact`).

## Model

| member | source | states |
|---|---|---|
| `LoaderState.EmptyManager` | src/vs/loader.js:1233-1252 | a new manager satisfies the whole invariant and has nothing half done |
| `LoaderSteps.DefineKeeps` | src/vs/loader.js:1352-1370 | adding a new module, nothing examined yet, keeps the invariant: counters balance, waits-for is acyclic, run order is legal |
| `LoaderSteps.PassKeeps` | src/vs/loader.js:1663-1684 | counting off a dependency that is provided keeps the invariant |
| `LoaderSteps.SkipKeeps` | src/vs/loader.js:1685-1695 | giving up a dependency keeps the invariant, provided the dependency lies on a declared cycle |
| `LoaderSteps.WaitKeepsAcyclic` | src/vs/loader.js:1685-1698 | a new wait closes no cycle of waits, because the search along held dependencies found no way back |
| `LoaderSteps.WaitKeeps` | src/vs/loader.js:1696-1698 | recording a wait keeps everything but the promise that the awaited module has been requested |
| `LoaderSteps.RequestKeeps` | src/vs/loader.js:1591-1596 | requesting the awaited module restores that promise |
| `LoaderSteps.FailKeeps` | src/vs/loader.js:1172-1180 | passing on the error of a script that cannot be loaded keeps the invariant, and with it that every error names such a script |
| `LoaderSteps.TakeOverKeeps` | src/vs/loader.js:1677-1681 | taking over the error of a dependency on examination keeps the invariant |
| `LoaderSteps.TakeOverIsInformed` | src/vs/loader.js:1677-1681 | if somebody is left untold of an error, it is by a module that took it over from a dependency, and this is on record |
| `LoaderSteps.LoadFailureIsInformed` | src/vs/loader.js:1464-1498 | a load error leaves nobody untold who was not untold before |
| `LoaderSteps.CompleteKeepsOrder` | src/vs/loader.js:1722-1764 | a module with all dependencies examined and counter zero may run now: each dependency has run before it or was given up |
| `LoaderSteps.CompleteKeeps` | src/vs/loader.js:1761-1764 | completing a ready module and fetching those waiting for it keeps the invariant, fetched entries still counted |
| `LoaderSteps.DrainKeeps` | src/vs/loader.js:1765-1776 | resolving one fetched entry keeps the invariant; a counter that reaches zero means the module is done or ready to run |
| `LoaderSteps.LoadFailureKeeps` | src/vs/loader.js:1464-1498 | a load error undoes nothing and keeps the invariant, also when a placeholder module had to be made |
| `LoaderTheorems.IncompleteHasCulprit` | src/vs/loader.js:1658-1776 | between calls, any incomplete module waits, through a chain of waits, for one that was requested and never defined or for one that failed and left somebody untold |
| `LoaderTheorems.AllDoneExactly` | src/vs/loader.js:1658-1776 | no deadlock in the presence of errors: between calls every module is complete, by running or failing, if and only if whoever waits for a failed module has failed too and whatever the others wait for is defined |
| `LoaderTheorems.OnlySilenceHoldsUp` | src/vs/loader.js:1677-1681 | once everything requested is defined, an incomplete module waits, through a chain, for one that took over an error from a dependency while somebody waited for it |
| `LoaderTheorems.TakeOverTellsExactly` | src/vs/loader.js:1677-1681 | taking over an error leaves everybody told if and only if all who wait for the module have an error already |
| `LoaderTheorems.LoadFailureTells` | src/vs/loader.js:1464-1498 | a load error leaves everybody told |
| `LoaderTheorems.WaitTells` | src/vs/loader.js:1696-1698 | a module begins to wait only for one that has not failed, so there is nothing it is not told |
| `LoaderTheorems.EveryEnd` | src/vs/loader.js:1352-1776 | what holds between calls, taken together: whose errors there are, who is incomplete and why, and when nobody is |
| `LoaderExamples.LeftInLimbo` | src/vs/loader.js:1677-1681 | 3 waits for 4, script 5 fails, then 4 is defined and needs 5: 4 has failed, 3 is incomplete, and all that was requested is defined |
| `LoaderExamples.ToldAfterAll` | src/vs/loader.js:1464-1498 | if then script 4 fails, 3 is told |
| `LoaderTheorems.NoDeadlock` | src/vs/loader.js:1505-1541 | between calls, if everything requested is defined and nothing failed, every module is complete and has run, whatever cycles were declared |
| `LoaderTheorems.RunsInDependencyOrder` | src/vs/loader.js:1722-1761 | if the declared dependencies have no cycle, every module runs after all modules it depends on |
| `LoaderTheorems.RegularCycleIsReported` | src/vs/loader.js:1685-1695 | once all modules have run, any cycle of regular dependencies has been reported |
| `LoaderTheorems.ReportedCycleIsDeclared` | src/vs/loader.js:1685-1695 | at any time, a reported cycle is a declared one |
| `LoaderTheorems.CycleReportIsExact` | src/vs/loader.js:1685-1695 | once all modules have run: both of these, and report and declaration agree if no module was defined under a special key |
| `LoaderTheorems.NoFactoryAfterError` | src/vs/loader.js:1722-1727 | from any state to any later one: factories are only added, none twice, none of a module that was complete without having run, and none of a module with the error of another |
| `LoaderTheorems.FactoriesInHistory` | src/vs/loader.js:1139-1180 | so between any two moments of a run, however far apart |
| `LoaderTheorems.RunAndFailedExactly` | src/vs/loader.js:1464-1498 | after a load error no module has both run and failed, provided none had before, if and only if the module of the failing script has not run |
| `LoaderExamples.RunsThenFails` | src/vs/loader.js:1464-1498 | a module without dependencies runs, then its script fails: it has run and failed |
| `ModuleManagers.Module.constructor` | src/vs/loader.js:1097-1109 | a new module holds its dependencies, all unresolved, incomplete and without error |
| `ModuleManagers.Module.Complete` | src/vs/loader.js:1139-1168 | after its factory a module is complete and has let go of dependencies and error handler |
| `ModuleManagers.Module.OnDependencyError` | src/vs/loader.js:1172-1180 | the module is complete with the error; the result tells whether it had a handler |
| `ModuleManagers.ModuleManager.constructor` | src/vs/loader.js:1233-1252 | the new manager is the empty one |
| `ModuleManagers.ModuleManager.HasDependencyPath` | src/vs/loader.js:1505-1541 | the search ends and finds exactly the non-empty paths through modules that still hold their dependencies |
| `ModuleManagers.ModuleManager.OnModuleComplete` | src/vs/loader.js:1722-1776 | a module already complete is left alone; otherwise it runs first, then those that waited for it are resolved in the order in which they began to wait; completing it and all that this sets free ends, keeps the invariant, adds no module, and leaves no fetched entry behind |
| `ModuleManagers.ModuleManager.ResolveInverses` | src/vs/loader.js:1765-1776 | each fetched entry is resolved once and in order, through all nested completions |
| `ModuleManagers.ModuleManager.ResolveInverse` | src/vs/loader.js:1769-1774 | resolving one entry keeps the invariant; the module runs next if that was the last it waited for, and otherwise nothing but its counter changes |
| `ModuleManagers.ModuleManager.SpreadError` | src/vs/loader.js:1469-1497 | the walk ends and reaches exactly the modules that wait for the failed one directly or not, each once; those and no others fail; the global handler is called iff none had its own |
| `ModuleManagers.ModuleManager.OnLoadError` | src/vs/loader.js:1464-1498 | the same from the event on, with the placeholder module for a script that never defined one; all other modules stay as they are |
| `ModuleManagers.ModuleManager.LoadModule` | src/vs/loader.js:1591-1629 | a script known before, or whose module is defined, is not loaded again and nothing changes; a new one is known, and if it is evaluated on the spot its calls, one after the other, and its failure if it throws after them, have had their effect on return |
| `ModuleManagers.ModuleManager.LoadScript` | src/vs/loader.js:1604-1629 | every call of the script has had its effect, in order, and if it throws then, its error has gone to its module and exactly those who wait for it |
| `ModuleManagers.ModuleManager.ExamineDependency` | src/vs/loader.js:1662-1716 | examining ends in failure exactly if the dependency is a module with an error, and then that error is taken over and, if anybody without an error waits, this is on record; otherwise one more dependency is examined |
| `ModuleManagers.ModuleManager.ExamineDependencies` | src/vs/loader.js:1661-1717 | all dependencies get examined unless one has failed, through whatever else gets defined meanwhile |
| `ModuleManagers.ModuleManager.Resolve` | src/vs/loader.js:1658-1721 | afterwards the module is done or waits with a positive counter |
| `ModuleManagers.ModuleManager.DefineModule` | src/vs/loader.js:1352-1370 | a new module has the dependencies given and, unless it has run, the handler given, and is resolved as far as possible; a second definition changes nothing |
| `ModuleManagers.ModuleManager.Evaluate` | src/vs/loader.js:1620-1626 | the calls of a script take effect one after the other, each with its own id, dependencies and handler |
| `ModuleManagers.Run` | src/vs/loader.js:1352-1776 | for every run: each event has its effect, a definition of a new id with its dependencies and handler, a failure on its module and exactly those that wait for it; every module comes from a call of an event or a script with its dependencies, or is the placeholder of a failed script; the invariant holds at every moment between events, no factory runs twice or after an error, errors name only scripts that could not be loaded; every module is complete if and only if nobody waits for a missing or silently failed one; if all requested modules are defined and none failed silently all are complete, and if every script loads all have run |
| `ModuleManagers.Dispatch` | src/vs/loader.js:1352-1498 | one event: a call is taken with its id, dependencies and handler, a failure spreads from its own module; nothing is left half done |
| `ModuleManagers.LoadFailureSpreads` | src/vs/loader.js:1464-1498 | a load error is in its module and in exactly those that waited for it, directly or not; all others are unchanged |
| `ModuleManagers.AllStem` | src/vs/loader.js:1352-1370 | whatever comes after the empty manager, all its modules come from calls with these dependencies or from failures |
| `ModuleIds.NormalizeModuleId` | src/vs/loader.js:1061-1078 | the rewriting loops end and give what one left-to-right pass over a stack gives, for every string; from any directory the result leads where the id leads |
| `ModuleIds.NormalIsIdempotent` | src/vs/loader.js:1061-1078 | normalizing a normalized id changes nothing |
| `ModuleIds.NormalLeadsThere` | src/vs/loader.js:1061-1078 | going down, up or nowhere segment by segment, a normalized id leads from any directory to the same place as the id, and holds no `.` and no `..` behind a removable segment before its last segment |
| `ModuleIds.DropDot` | src/vs/loader.js:1063-1067 | taking out a `.` segment does not change the normal form |
| `ModuleIds.DropParent` | src/vs/loader.js:1070-1074 | taking out a removable segment and the `..` behind it does not change the normal form |
| `ModuleIds.DropLeadingParent` | src/vs/loader.js:1075-1076 | the same at the very front |
| `ModuleIds.FindParent` | src/vs/loader.js:1071-1072 | the match is the leftmost one; no match means there is none anywhere |
| `ModuleIds.RemovableIsPattern` | src/vs/loader.js:1071-1076 | the alternatives of the regular expression accept exactly the segments that are neither empty nor `..` |
| `Vlq.AlphabetIsBijective` | scripts/playground-server.ts:816-824 | the two tables are inverse to each other on the 64 digits |
| `Vlq.TablesFollowAlphabet` | scripts/playground-server.ts:816-824 | entry i of each table is character i of the 64 characters of RFC 4648, section 4, and `=` is the 65th |
| `Vlq.EncodedInRange` | scripts/playground-server.ts:849-868 | strictly between -2^30 and 2^30 the 32-bit encoder emits the digits of the format |
| `Vlq.EncodedStandsFor` | scripts/playground-server.ts:849-868 | all digits but the last have the continuation bit, and their lower five bits, lowest first, add up to twice the magnitude, plus one for a negative number |
| `Vlq.EncodedIsShort` | scripts/playground-server.ts:849-868 | and no more than seven of them |
| `SourceMapFormat.RoundTripExactly` | scripts/playground-server.ts:770-787 | a reader gets back the number that was encoded if and only if it is strictly between -2^30 and 2^30 |
| `SourceMapFormat.FirstTooLarge` | scripts/playground-server.ts:849-868 | 2^30 is written as one digit and reads back as zero |
| `SourceMapFormat.ReadEncodedAll` | scripts/playground-server.ts:770-787 | any concatenation of encodings reads back as the list of numbers |
| `SourceMapWriters.SegmentMeans` | scripts/playground-server.ts:770-787 | a segment of one or four numbers means a mapping of its column to nothing, or to source, line and column in that order, relative to the last ones |
| `SourceMapWriters.WrittenReadsBack` | scripts/playground-server.ts:758-789 | any list of mappings in line order, written by the rules of the format with differences below 2^30, reads back as that list |
| `DynamicBuffers.DynamicBuffer.constructor` | scripts/playground-server.ts:830-833 | a new buffer is empty, with room for 512 bytes |
| `DynamicBuffers.DynamicBuffer.EnsureCapacity` | scripts/playground-server.ts:835-842 | contents stay; capacity at least doubles when it grows; in all, fewer bytes have been copied than fit in |
| `DynamicBuffers.DynamicBuffer.AddByte` | scripts/playground-server.ts:844-847 | one byte is appended; a capacity once grown stays below twice the size |
| `DynamicBuffers.DynamicBuffer.AddBuffer` | scripts/playground-server.ts:877-881 | the bytes are appended in order |
| `DynamicBuffers.DynamicBuffer.AddVLQ` | scripts/playground-server.ts:849-868 | what the 32-bit encoder emits for the number is appended, for every integer |
| `DynamicBuffers.DynamicBuffer.ToBuffer` | scripts/playground-server.ts:883-885 | the result is everything appended so far |
| `SourceMapConcat.CommitFollows` | scripts/playground-server.ts:741-757 | after a segment is re-encoded, a reader of the output stands where a reader of the input does, with lines shifted and sources renumbered |
| `SourceMapConcat.WalkFollows` | scripts/playground-server.ts:758-789 | the same through any accepted mappings, byte by byte |
| `SourceMapConcat.AddKeepsMeaning` | scripts/playground-server.ts:716-795 | a source adds its own mappings, lowered by the lines already there, to what the map says, and the map stays fit to be extended |
| `SourceMapConcat.ConcatenationTheorem` | scripts/playground-server.ts:716-795 | the built map of any list of sources means the concatenation of their maps, each lowered by the lines before it, and its lines are those of the content |
| `SourceMapConcat.PiecesInPlace` | scripts/playground-server.ts:716-719 | the code of each source stands behind the code of those before it, and its mappings behind theirs, as many lines down as that code has |
| `SourceMapConcat.FitsExactly` | scripts/playground-server.ts:790-794 | adding a source leaves later ones in their place if and only if its mappings end before its content does |
| `SourceMapConcat.ProbeOnWrongLine` | scripts/playground-server.ts:790-794 | after a source with one line and two separators, what follows on line 1 is mapped on line 2 |
| `SourceMapConcat.InternKeepsDistinct` | scripts/playground-server.ts:720-728 | no source name is listed twice |
| `SourceMapConcat.RemapNames` | scripts/playground-server.ts:720-728 | the renumbering leads each source to its own name |
| `SourceMapMachines.DigitTracks` | scripts/playground-server.ts:770-787 | on maps that follow the format the 32-bit decoder keeps step with a reader that computes with unbounded numbers |
| `SourceMapMachines.EmitIsCommit` | scripts/playground-server.ts:741-757 | the segment the loop writes is the one the format asks for |
| `SourceMapMachines.StepAllIsWalk` | scripts/playground-server.ts:758-789 | on a readable map the whole loop computes the translation the format asks for, up to the byte that stops it |
| `SourceMapMachines.AddRawIsAdd` | scripts/playground-server.ts:716-795 | adding a source with a readable map is adding it as the format asks, or stopping half way |
| `SourceMapMachines.AddRawAllIsAddAll` | scripts/playground-server.ts:716-795 | so with any number of sources |
| `SourceMapLines.SeparatorsKept` | scripts/playground-server.ts:758-789 | whatever the bytes, each separator of the input is written once and no other, and each `;` counts as a line |
| `SourceMapLines.LinesAdded` | scripts/playground-server.ts:790-794 | whatever the map, it adds as many lines as it has itself or as the code has, whichever are more |
| `SourceMapLines.AlignedExactly` | scripts/playground-server.ts:790-794 | whatever the map, the lines of map and code stay aligned if and only if the map has no more of them |
| `SourceMapBuilders.CountNewlines` | scripts/playground-server.ts:888-894 | the loop counts the newlines |
| `SourceMapBuilders.MakeSource` | scripts/playground-server.ts:680-697 | content gets a newline at its end if it is not empty and lacks one, and the line count is that of the content |
| `SourceMapBuilders.SourceMapBuilder.constructor` | scripts/playground-server.ts:703-708 | a new builder stands for the empty map |
| `SourceMapBuilders.SourceMapBuilder.InternSources` | scripts/playground-server.ts:720-728 | names are added once and the renumbering points at them |
| `SourceMapBuilders.SourceMapBuilder.CommitSegment` | scripts/playground-server.ts:741-757 | the bytes appended and the last positions kept are those of the segment under way, also when its source is not in the list |
| `SourceMapBuilders.SourceMapBuilder.TranslateMappings` | scripts/playground-server.ts:729-790 | for all bytes: the loop writes the re-encoded mappings, and stops at the first byte that the table does not know, if there is one |
| `SourceMapBuilders.SourceMapBuilder.FillLines` | scripts/playground-server.ts:791-794 | separators are added up to the number of lines |
| `SourceMapBuilders.SourceMapBuilder.AddSource` | scripts/playground-server.ts:716-795 | for all maps: the builder becomes the extended one, and throws exactly if the table does not know a byte, with what had been written by then |
| `SourceMapBuilders.SourceMapBuilder.AddLine` | scripts/playground-server.ts:710-714 | one line of text and one separator are appended |
| `SourceMapBuilders.AddLineKeepsMeaning` | scripts/playground-server.ts:710-714 | a line of text changes nothing in what the map says and keeps lines aligned |
| `Bundles.EnterKeeps` | scripts/playground-server.ts:505-509 | entering a module keeps the traversal in order: every open module leads to the one entered next |
| `Bundles.LeaveKeeps` | scripts/playground-server.ts:510-514 | emitting a module after its dependencies keeps the traversal in order |
| `Bundles.FinishedTraversal` | scripts/playground-server.ts:505-516 | a finished traversal has emitted exactly the reachable modules, each once, in order |
| `Bundles.AcyclicOrder` | scripts/playground-server.ts:505-516 | without cycles every dependency comes before its dependents |
| `Postorders.AddsWhatIsClear` | scripts/playground-server.ts:505-514 | on every graph, visiting a module adds, once each, exactly what can be reached from it without passing through what was entered before |
| `Postorders.SiblingsInOrder` | scripts/playground-server.ts:510-512 | of what a visit adds, what an earlier dependency reaches comes before what is first reached from a later one, reaching meant without what was entered before |
| `Postorders.PiecesInOrder` | scripts/playground-server.ts:510-512 | each dependency in turn adds what its own visit adds to everything entered before it |
| `Postorders.ItselfLast` | scripts/playground-server.ts:513 | a module comes after everything else that its visit adds |
| `Postorders.EarlierDependenciesFirst` | scripts/playground-server.ts:505-516 | without cycles: what an earlier dependency of the entry needs comes before what only later ones need |
| `Bundles.Bundler.Visit` | scripts/playground-server.ts:505-514 | the recursion ends on every graph, appends exactly what `Postorders.Added` gives for what was entered before, keeps builder and order in step, and fails only because of a map it reaches |
| `Bundles.BundleWithDependencies` | scripts/playground-server.ts:501-525 | fails exactly if a map reachable from the entry is rejected; otherwise the bundle holds exactly the reachable modules, once each, dependencies first but for cycles, without cycles also siblings in turn, and if their maps fit its map means the concatenation of theirs |
| `Streams.StepKeepsInv` | cli/src/rpc.rs:542-631 | every step keeps each stream idle, running, ending or closed, with nothing lost between log, batch and queue |
| `Streams.RunKeepsInv` | cli/src/rpc.rs:542-631 | so it is at every moment of every interleaving |
| `Streams.LoopFindsRecord` | cli/src/rpc.rs:604-608 | a loop about to take the lock or writing always finds its record, so the arm for a missing one is not taken |
| `Streams.ExactlyOneOwner` | cli/src/rpc.rs:543-562 | a write half has exactly one owner; an idle record has an empty queue and is not ended; it is shut down at most once and only after all accepted data |
| `Streams.NothingReordered` | cli/src/rpc.rs:596-631 | attempted writes, the batch in hand and the queue together are all accepted buffers in order, failed writes or not |
| `Streams.RunDelivers` | cli/src/rpc.rs:623-627 | in a run without failed writes no buffer is dropped |
| `Streams.FifoDelivery` | cli/src/rpc.rs:542-631 | in such a run the bytes received, in hand and queued are the bytes accepted, in order, also those accepted after the end was requested; after shutdown all have been received |
| `Streams.StepRefinesChannel` | cli/src/rpc.rs:542-631 | each event is to its stream the action of a first-in first-out channel that belongs to it: a write puts exactly that buffer unless the channel is sealed, a successful write out takes exactly one and delivers it, a failed one takes the rest of its batch and delivers none of it, and events of other streams change nothing |
| `StreamTables.StreamTable.constructor` | cli/src/rpc.rs:537-540 | the empty map satisfies the invariant |
| `StreamTables.StreamTable.Insert` | cli/src/rpc.rs:575-585 | a new stream is idle and owned by its record |
| `StreamTables.StreamTable.Write` | cli/src/rpc.rs:564-573 | the buffer is accepted if there is a record, and a loop starts exactly if the record had the write half |
| `StreamTables.StreamTable.Remove` | cli/src/rpc.rs:543-562 | an idle stream is taken out for shutdown, a busy one is marked as ended |
| `StreamTables.StreamTable.LoopSection` | cli/src/rpc.rs:603-621 | under the lock the loop takes the whole queue, gives the write half back, or removes an ended record |
| `StreamTables.StreamTable.WriteNext` | cli/src/rpc.rs:623-627 | one buffer is written, or the rest of the batch is lost |
| `StreamTables.StreamTable.ShutDown` | cli/src/rpc.rs:558-561 | the write half is shut down once and its task is gone |
| `Dispatch.StepKeepsInv` | cli/src/rpc.rs:420-524 | every step keeps answers, message order and stream registration right |
| `Dispatch.ExactlyOneResponse` | cli/src/rpc.rs:115-143 | a request with an id gets one response, a message without an id none, and nobody ever two |
| `Dispatch.AnswerMatches` | cli/src/rpc.rs:218-270 | a response carries the id of its request and comes after the announcement of its streams |
| `Dispatch.StreamMessagesInOrder` | cli/src/rpc.rs:453-524 | data and end of a stream come after its announcement, and nothing of it after its end |
| `Dispatch.StreamsAreRegistered` | cli/src/msgpack_rpc.rs:71-96 | when the next frame is dispatched all streams of earlier calls have been put into the map |
| `Dispatch.EveryRun` | cli/src/msgpack_rpc.rs:66-97 | all of this at every moment of every interleaving |
| `DispatchTraces.StreamsCarryWhatWasRead` | cli/src/rpc.rs:486-522 | in every run at every moment: the data and end messages sent for a stream are, in order, the segments its reader has read and the end it has met |
| `DispatchTraces.ResponsesAreThoseDue` | cli/src/rpc.rs:421-450 | in every run at every moment: a response has been sent if and only if its frame asked for a method under that id, and method, parameters and callback or ended future have come to that status |
| `DispatchTraces.StatusTells` | cli/src/rpc.rs:115-143 | a response says not found iff the method is not registered, invalid iff it is and the parameters were bad, else success or failure as its callback said, at once for a synchronous method and by its future for the others |
| `DispatchTraces.FutureEndsOnce` | cli/src/msgpack_rpc.rs:77-95 | a future ends at most once |
| `DispatchTraces.StartsAreThoseCalledFor` | cli/src/rpc.rs:242-252 | streams are announced if and only if a frame asked for a duplex method with good parameters: as many as the method has, with the ids taken for them, under the id of the request or 0 if it has none |
| `DispatchTraces.CallsWaitForReplies` | cli/src/rpc.rs:440-449 | one of our calls waits exactly from when it is made until a reply with its id comes |
| `DispatchTraces.PanicsExactly` | cli/src/rpc.rs:440-449 | the connection panics exactly on a reply without an id, and nothing happens after that |
| `Dispatchers.Dispatcher.constructor` | cli/src/rpc.rs:293-300 | a new dispatcher has received and sent nothing |
| `Dispatchers.Dispatcher.AnnounceStreams` | cli/src/rpc.rs:242-252 | ids taken one by one from the shared counter are announced in that order |
| `Dispatchers.Dispatcher.DispatchFrame` | cli/src/rpc.rs:420-450 | a frame is answered, started or taken as a reply by the kind of its method, as one step of the machine about whose runs the rows above speak, and the invariant stays |
| `Dispatchers.Dispatcher.RegisterNext` | cli/src/rpc.rs:477-485 | the next stream of the call is in the map and its reader runs |
| `Dispatchers.Dispatcher.SpawnFuture` | cli/src/msgpack_rpc.rs:85-95 | the future of a duplex call starts only when its streams are registered |
| `Dispatchers.Dispatcher.FinishFuture` | cli/src/msgpack_rpc.rs:77-84 | a finished future answers once, with the status it was given or as its callback said, and is gone |
| `Dispatchers.Dispatcher.OnStreamRead` | cli/src/rpc.rs:486-522 | exactly the segment read is passed on, and the end only when nothing more can be read |
| `StreamFrames.StepKeepsInv` | cli/src/rpc.rs:275-291 | every step of both machines together keeps what was accepted of a stream in line with the data frames since the stream was started |
| `StreamFrames.RunKeepsInv` | cli/src/rpc.rs:275-291 | so it is at every moment of every interleaving, and requests to end are outstanding or carried out |
| `StreamFrames.FramesAreRemembered` | cli/src/rpc.rs:275-291 | what the connection knows of frames and carried-out ends is what the frames said and which futures took the lock, in order |
| `StreamFrames.DataIsAccepted` | cli/src/rpc.rs:287-291 | a data frame for a stream that was started is accepted, unless an earlier frame asked to end it |
| `StreamFrames.RunDelivers` | cli/src/rpc.rs:623-627 | without failed writes nothing accepted is dropped |
| `StreamFrames.FramesReachCallback` | cli/src/rpc.rs:275-291 | without failed writes, bytes received by the callback, in hand and queued are those of the data frames since the start in frame order: all of them if no frame asked for an end, else at least those before it; after shutdown the callback has every byte that was accepted |
| `StreamFrames.EndIsHonoured` | cli/src/rpc.rs:278-285 | once a request to end a stream started before has been answered, the stream is ended or about to be |
| `StreamConnections.StreamConnection.constructor` | cli/src/rpc.rs:275-301 | a dispatcher is built with an empty map of streams and its two methods for streams |
| `StreamConnections.StreamConnection.HandleFrame` | cli/src/rpc.rs:420-426 | a frame is dispatched and its data, if any, is in the queue of its stream before the next frame |
| `StreamConnections.StreamConnection.RegisterNext` | cli/src/rpc.rs:477-485 | the next stream of a call is registered with dispatcher and map together |
| `StreamConnections.StreamConnection.CarryOutEnd` | cli/src/rpc.rs:278-285 | a request to end takes effect on the map at some time after its frame |
| `Frames.ChunkingIsIrrelevant` | cli/src/msgpack_rpc.rs:66-97 | however the same bytes are cut into reads, frames, failure and rest are the same |
| `Frames.NoByteLost` | cli/src/msgpack_rpc.rs:139-162 | frames and rest together are all bytes received; after a failure, frames are a part from the start |
| `Frames.FramesAreTheObjects` | cli/src/msgpack_rpc.rs:139-162 | each frame is the object that stands right behind the one before, and after the last there is a malformed object or no whole one |
| `Frames.Connection.constructor` | cli/src/msgpack_rpc.rs:60-61 | a new connection has decoded nothing and holds no bytes |
| `Frames.Connection.Decode` | cli/src/msgpack_rpc.rs:139-162 | one object is cut off the front of the buffer with its bytes, or the buffer stays as it is |
| `Frames.Connection.OnRead` | cli/src/msgpack_rpc.rs:68-97 | after a read everything decodable has been dispatched in order |
| `Keyring.StoredAt` | cli/src/auth.rs:331-353 | entry by entry what a store leaves: the parts of the value, and beyond them what was there before |
| `Keyring.ReadAfterStore` | cli/src/auth.rs:309-353 | reading after storing gives the value back whatever stale entries there are, for every storable value |
| `Keyring.RoundTripExactly` | cli/src/auth.rs:309-353 | a value reads back over all stale entries if and only if it is storable |
| `Keyring.FullPartIsLost` | cli/src/auth.rs:339-342 | any value of exactly one step reads back as nothing in an empty keyring, and with a stale second entry appended if there is one |
| `Keyring.LostAtTheLimits` | cli/src/auth.rs:221-226 | in particular values of 1018 characters on Windows and of 131066 elsewhere |
| `Keyring.EntriesFit` | cli/src/auth.rs:333-345 | no entry exceeds the limit |
| `Keyring.KeyringStorage.constructor` | cli/src/auth.rs:289-293 | no entry has been opened yet |
| `Keyring.KeyringStorage.GetNextEntry` | cli/src/auth.rs:295-306 | the entry at an index is the entry of that number, opened when it is the next one |
| `Keyring.KeyringStorage.Read` | cli/src/auth.rs:309-329 | the loop ends and returns the joined parts or nothing if one is missing, and an error exactly if an entry it gets to cannot be read |
| `Keyring.KeyringStorage.StoreSealed` | cli/src/auth.rs:331-353 | fails exactly if an entry the value needs cannot be written; then the parts before the first such entry have been written and no others, else all |
| `DownloadCaches.TouchKeepsList` | cli/src/download_cache.rs:119-139 | the touched name comes first, nothing is listed twice, and only the last name can drop out, never the touched one |
| `DownloadCaches.ListIsRecent` | cli/src/download_cache.rs:119-139 | while nothing is deleted and evictions succeed, the list is the five most recently used names, latest first |
| `DownloadCaches.ListIsAlive` | cli/src/download_cache.rs:63-139 | after any history of uses and deletions, failed evictions or not, the list is a first part of the names not deleted since their last use, latest first, none twice |
| `DownloadCaches.OnListExactly` | cli/src/download_cache.rs:63-139 | while evictions succeed, a name is on the list if and only if it was used, not deleted since, and has been among the first five such names ever since |
| `DownloadCaches.AliveExactly` | cli/src/download_cache.rs:63-139 | a name counts as alive if and only if the last thing that happened to it was a use |
| `DownloadCaches.AliveInOrder` | cli/src/download_cache.rs:119-139 | of two such names, the one used last comes first |
| `DownloadCaches.FiveEvictNothing` | cli/src/download_cache.rs:19 | with five names or fewer nothing is ever evicted: the list holds all names alive |
| `DownloadCaches.RetainKeepsOrder` | cli/src/download_cache.rs:69-71 | of two names that remain after a deletion, one stands before the other if and only if it did before |
| `DownloadCaches.LengthIsBounded` | cli/src/download_cache.rs:126-135 | the list is never longer than five plus the number of times a name had to be evicted and could not, deletions included |
| `DownloadCaches.TouchKeepsTracked` | cli/src/download_cache.rs:119-139 | every cached directory stays listed |
| `DownloadCaches.PersistedState.constructor` | cli/src/state.rs:107-115 | nothing is loaded yet |
| `DownloadCaches.PersistedState.LoadOrGet` | cli/src/state.rs:46-59 | loading is lazy and does not change the current value; an unreadable file counts as the default |
| `DownloadCaches.PersistedState.Save` | cli/src/state.rs:61-85 | the value is current even if writing fails; the file then keeps its old text or is damaged |
| `DownloadCaches.Restart` | cli/src/state.rs:46-59 | a new process sees what the file holds, or the default |
| `DownloadCaches.Reopen` | cli/src/state.rs:46-59 | a reopened cache is as valid as before if the list was written last; after the file was lost or cut off it is valid if and only if there are only staging directories |
| `DownloadCaches.DownloadCache.constructor` | cli/src/download_cache.rs:32-37 | a cache over a state and the directories found on disk |
| `DownloadCaches.DownloadCache.Touch` | cli/src/download_cache.rs:119-139 | list and directories change together: the evicted name loses its directory, all remaining directories are listed |
| `DownloadCaches.DownloadCache.Exists` | cli/src/download_cache.rs:52-60 | a cached directory is found and marked as used, and is still there afterwards |
| `DownloadCaches.DownloadCache.Delete` | cli/src/download_cache.rs:63-72 | directory and name go together, or neither does if the directory cannot be removed; the names that remain keep their order |
| `DownloadCaches.DownloadCache.Rename` | cli/src/download_cache.rs:102-114 | succeeds exactly if the staging directory is there and no more than twenty attempts fail, and otherwise changes nothing |
| `DownloadCaches.DownloadCache.Create` | cli/src/download_cache.rs:78-117 | success means the directory is there and listed; a name is recorded before the rename and stays recorded when that fails |

## Left out

- Plugin dependencies, build mode, event recording, the printed cycle path and the exported values of the module manager: the cycle search does not follow plugin ids, and the rest decides nothing about order.
- Throwing factories, factories that call `define` while they run, and error handlers that call back into the loader: ordering is claimed for factories that return.
- Anonymous `define` calls, the fallback over several paths of one script and the script loaders themselves: a script is something that defines modules or fails.
- The mapping from strings to module ids is taken as given; `ModuleManagers.ModuleManager.Intern` only keeps track of how many there are.
- Which cycles through a module defined under one of the reserved ids `exports`, `module` or `require` are reported: it depends on the order of definitions.
- SourceMapConcat.ConcatenationTheorem: what a map means is stated for maps whose segments have one, four or five fields, with digits of the alphabet and positions below 2^30; other maps mean nothing in the format, and for them the bytes written and the number of lines are what is proved.
- Floating-point rounding in the decoder: sums of 32-bit numbers are taken as exact, as they are below 2^53.
- Names (the fifth field of a segment) are dropped by the builder and have no place in the meaning of a map.
- JSON and base64 of the map at the end of a bundle, `sourceRoot`, the HTTP server, file watching and cached bundles: the last line of a bundle is a parameter.
- Wrap-around of the 32-bit message counter: ids are taken to be fresh, as they are for fewer than 2^32 of them.
- Liveness of the RPC loops: the outgoing channel is unbounded here, and a failed send or a stopped read loop is not modelled.
- Callers of remote methods: outgoing calls only take ids and are crossed off when a reply comes.
- Serialization, encryption, the keyring service, the file system and the async runtime are parameters with the outcomes the code distinguishes.
- Values with characters of more than one byte in the keyring, and `clear`: the sealed text is taken as ASCII, as encrypted values are.
- Concurrent `create` calls of the download cache, and what is inside of directories.
- OAuth, singleton, updater and start-up code: tables and input or output.
