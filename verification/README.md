# Autark: a verified model of its build core

Autark is a build system for C and C++ projects. This project models the parts of it whose correctness
is not visible from reading one function, and proves what they are for.

* **Build engine** (`BuildGraph`, `BuildEngine`). `node_build` visits a graph of tree children and
  "consumes a product of" edges depth first, guarded only by the BUILT flag and a call counter. The model
  keeps the flags, the counters and a ghost log of events. The main result is `Session.Build`.
* **Hash map** (`HashTable`, `HashMap`, `MapIteration`, `MapRuns`). Linear probing in a real array, backward
  shift deletion, growing and shrinking, the iterator that survives removal, and the ownership of keys and values.
  The hash function and the text behind a key pointer are arbitrary functions.
* **Incremental rebuild** (`DepsFormat`, `DepsFile`, `NodeResolve`, `CcRule`, `Incremental`, `Rebuilds`,
  `RuleInputs`, `MissedSource`, `TargetSwitch`). The dependency file is a sequence of characters that is written, read back in place, and judged;
  the compile rule selects, compiles and records; and histories of edits and builds are shown to compile what is stale, and short of a
  full rebuild nothing else.
* **Parallel compilation** (`CompileLoop`). A pool of tasks in which `wait` reports any running task.
* **Tree shaking** (`Forests`, `TreeShaking`). A table of child, next and parent links is rewired while a loop walks
  over it; the result is that of a recursive function, which for well placed else-bags is the lexical reading.
* **Paths** (`PathAlgebra`, `Paths`). Normalizing, relativizing and the prefix test on strings.
* **Containers** (`UList`, `Pool`). The sliding list and the arena.

File times, environment values, exit codes, spawn failures, header lists of the compiler and conditions of
if-rules are parameters. A fatal error ends the process: no later state is promised.

Three statements one would expect are false of the code, and are proved with their exact condition.

* A source with a stale object is always compiled: false in two ways. `_cc_source_add` keeps an absolute path as it is
  while the record holds the canonical one, and the selection compares the two texts. And the record of a failed
  interface is skipped as a repeat when the same file is listed before it as a plain source, so the importers that were
  skipped are forgotten. The exact condition is `Rebuilds.Safe`. A source that is not spelled canonically is safe if the
  first source of its file is an interface. A canonical one is safe if it is an interface, or if every interface `j` of
  another file is heeded: the first source of that file is an interface; or the file at hand has an interface too, and
  `j` is not canonical or one of the interfaces of the two files would be reported when both files are outdated.
  `MissedSource.NeverMissedMeansSafe` states both directions for a source and `MissedSource.NeverLeftMeansSafe` for a
  file with all its spellings; `MissedSource.OddSpellingIsMissed`, `MissedSource.ImporterIsMissed` and
  `MissedSource.MaskedTwinIsMissed` give inputs.
* A build for a target compiles everything for it when no target was recorded: false when a source is outdated as well.
  `TargetSwitch.NewTargetSelectsAll` and `TargetSwitch.NewTargetRebuilds` give the condition,
  `TargetSwitch.TargetIsHalfApplied` the input.
* `ulist_remove_by` reports the position of the removed element: false when the list does not begin at the
  start of its block (`UList.List.RemoveBy`, with the input in `UList.RemoveByMisreports`).

`DepsFormat.FaithfulWhenUnmixed` likewise gives the exact condition under which a record survives the dependency file.

## Model

| member | source | states |
|---|---|---|
| `BuildEngine.Session.Build` | script.c:913-919 | A whole build: ends normally if and only if no cycle and no missing input can be reached; then exactly the nodes reachable from the root through unbuilt nodes are finished, each because something built asks for it, and each of their build actions did its work once, told all its inputs, when its children, the makers of its absent sources and the owners of what it consumes were finished. The order is depth first: what a node asks for is built in the order of the requests, its work comes right behind, and its end right behind that. A cycle that is reported is real and goes through the node reported; a path reported as missing is requested by the node reported and found nowhere. Terminates on every graph |
| `BuildEngine.Session.NodeBuild` | script.c:707-726 | node_build under any stack of nodes in progress: an unbuilt node is finished after all it depends on, counters are restored, a node asked for while in progress ends in a cyclic dependency error that names a node on the cycle, even though its children are entered again before `bld_calls` is looked at |
| `BuildEngine.Session.CallBuild` | script.c:710-723 | A second entry of a build action is a cycle and names the node; a first one leaves the counter as it was and finishes legally |
| `BuildEngine.Session.RunCounted` | script.c:714-722 | Between the two counter updates the action runs with all children built, and the node may be finished afterwards |
| `BuildEngine.Session.BuildSubnodes` | script.c:636-640 | After the loop every child is built, or the failure is explained by a real cycle or missing input; a re-entered node whose action runs finds nothing to do |
| `BuildEngine.Session.RunBuild` | script.c:719-721 | The work event of a rule carries the inputs the request order prescribes and comes after all dependencies |
| `BuildEngine.Session.BuildSources` | node_cc.c:520-530 | Owners of absent sources are built first; an absent source without owner is reported as unresolved |
| `BuildEngine.Session.BuildOwner` | script.c:1183-1186 | Asking for the owner of a product builds it or closes a cycle through the edge to it |
| `BuildEngine.Session.ConsumesResolve` | script.c:1143-1217 | node_consumes_resolve: owners of all requested products are built, what is found is reported in the order cached first then sources, and a path found nowhere is reported as unresolved |
| `BuildEngine.Session.ResolveProducts` | script.c:1179-1195 | The loop that takes entries off the list it iterates handles every request once and leaves exactly the requests that are not in the cache |
| `BuildEngine.ResolveSources` | script.c:1197-1211 | The second loop fails exactly when some remaining path is not among the sources, and reports such a path |
| `BuildEngine.Session.ResolveInputs` | node_run.c:396-425 | A run rule asks for its consumed paths and for its foreach items before its work; afterwards every dependency is finished, nothing is missing, and the inputs are all consumed paths and then all items, those found in the cache first in each part |
| `BuildEngine.WhatRan` | script.c:707-726 | From a legal log to the per-node statement: built exactly if reachable, run exactly once if it has an action |
| `BuildEngine.HeightsFall` | script.c:636-640 | While only children are visited the heights fall along the stack, so a node in progress cannot be met again without a running build action above it |
| `BuildEngine.Locate` | script.c:636-640 | A node asked for while in progress has a running build action at or above it on the stack: the late `bld_calls` check still catches it |
| `BuildEngine.ReentryLoops` | script.c:714-718 | Re-entering a node in progress exhibits a walk that goes round a cycle through every node from there on |
| `BuildEngine.AskChild` | script.c:636-640 | How the stack looks to a child that is entered, re-entered children included |
| `BuildEngine.Conclude` | script.c:722-724 | Setting the BUILT flag last keeps the set of built nodes closed under both kinds of dependency |
| `BuildGraph.FinishedMeansAcyclic` | script.c:707-726 | Once a node is finished in a legal log no cycle is reachable from it |
| `BuildGraph.FinishedIsClosed` | script.c:707-726 | Everything reachable from a finished node is finished |
| `BuildGraph.WalkDescends` | script.c:707-726 | Along every walk from a finished node, nodes finished strictly earlier |
| `BuildGraph.RunsOnce` | script.c:714-722 | In a legal log no action runs twice, and an action ran exactly for the finished rules that have one |
| `BuildGraph.InputsAreTold` | script.c:1179-1211 | What a rule is told are the paths of `consumes`, then those of `items`, each as often as requested; in each part the cached ones first, otherwise in request order |
| `BuildGraph.AllowedIsLawful` | script.c:707-726 | In a legal log a node ends after its children and its work, and work is done when every source is there or made, and every request is owned by a finished node and found |
| `BuildGraph.EdgeIsAsked` | script.c:1179-1186 | The edges of the graph are the requests: children, makers of absent sources, and owners of consumed paths and items unless sources are preferred |
| `BuildGraph.ReachedIsAsked` | script.c:636-640 | Whatever is reached is asked for by something reached |
| `HashTable.HomeIsMod` | map.c:95-96 | The home slot is the hash modulo the capacity |
| `HashTable.ContentsRepresented` | map.c:92-109 | A table with unique keys stands for one mathematical map, which holds a key exactly if some slot does |
| `HashTable.RepresentsOnlyOne` | map.c:92-109 | A table stands for at most one mathematical map |
| `HashTable.Absent` | map.c:98-101 | Meeting an empty slot on the probe path proves the key is not stored |
| `HashTable.ProbeStep` | map.c:96-109 | Moving on from a slot that does not match keeps the search complete, and the distance to some empty slot falls |
| `HashTable.HasEmpty` | map.c:112-113 | A table with fewer entries than slots has an empty slot, so every probe loop ends |
| `HashTable.Claim` | map.c:118-126 | Filling the first empty slot of a probe path keeps every entry reachable |
| `HashTable.ShiftMoves` | map.c:187-195 | Moving an entry whose probe path crosses the hole back into it keeps the shift state |
| `HashTable.OnlySoMoves` | map.c:187-195 | Moving any other entry would make it unreachable: the distance test of the loop is exact |
| `HashTable.DistIsMod` | map.c:191 | The distance along the table is the masked difference |
| `HashTable.NextIsMod` | map.c:187 | The next slot is the masked successor |
| `HashTable.ShiftSkips` | map.c:187-195 | Skipping an entry that must stay is sound |
| `HashTable.ShiftEnds` | map.c:187-199 | When the shift meets an empty slot every remaining entry is reachable by its probe path, with no tombstone |
| `HashTable.RemoveAt` | map.c:183-199 | The whole backward shift removes exactly one key |
| `HashTable.PutAt` | map.c:206-219 | Writing a pair where the search ended updates exactly that key |
| `HashTable.MovingStep` | map.c:145-155 | Re-placing one entry in the new array keeps it reachable and unique |
| `HashTable.MovingEnds` | map.c:135-163 | After the rehash the new table stands for the same map and stores the same pairs |
| `HashTable.PutBalance` | map.c:206-219 | Given = stored + freed is kept by a put, the replaced pair being freed |
| `HashTable.RemoveBalance` | map.c:180-199 | Given = stored + freed is kept by a removal, which frees the removed pair |
| `HashTable.BalanceEnds` | map.c:234-245 | Freeing all stored pairs at the end balances the account |
| `HashMap.Map.constructor` | map.c:221-232 | A fresh map is empty |
| `HashMap.Map.EntryFind` | map.c:92-109 | Finds the one slot of a stored key, or none |
| `HashMap.Map.EntryPut` | map.c:113-132 | Returns the slot of a stored key, or the first empty slot of the probe path |
| `HashMap.Map.Get` | map.c:264-267 | Lookup in the mathematical map |
| `HashMap.Map.Put` | map.c:206-219 | Update of the mathematical map; the replaced pair, and only it, is freed; the capacity doubles exactly when more than three quarters would be used, and the call fails exactly when it cannot |
| `HashMap.Map.StoreAt` | map.c:206-219 | Filling the slot updates one key and frees what it replaces |
| `HashMap.Map.Resize` | map.c:135-163 | Either direction keeps the map, the count and the ownership of every pair; nothing is freed |
| `HashMap.Map.Rehash` | map.c:135-163 | All entries end in the new array, none twice |
| `HashMap.FirstEmpty` | map.c:149-152 | The insertion probe ends at the first empty slot |
| `HashMap.Map.ReserveEntry` | map.c:166-174 | Growth by doubling exactly when the load limit of three quarters would be exceeded |
| `HashMap.Map.ShiftBack` | map.c:185-199 | The in-place backward shift, including clusters that wrap around the end |
| `HashMap.Map.TakeOut` | map.c:179-199 | Frees the pair and closes the hole |
| `HashMap.Map.EntryRemove` | map.c:179-204 | Removal with halving of a table of more than 64 slots of which less than one eighth is used |
| `HashMap.Map.Remove` | map.c:255-262 | Removal from the mathematical map, reporting whether the key was there; every other entry survives in place or moved back |
| `HashMap.Map.Destroy` | map.c:234-245 | After destruction the freed pairs are exactly the pairs ever given |
| `HashMap.LoadIsThreeQuarters` | map.c:62-65 | The load limit is three quarters of the capacity |
| `HashMap.HashesKeepApart` | map.c:67-71 | Normalizing a hash maps no two hashes to one, but for the largest and 0 |
| `MapRuns.Live` | map.c:206-267 | Create, any operations, destroy: all answers are those of a mathematical map, and every pair ever put is freed exactly as often as it was put |
| `MapRuns.CountIsSize` | map.c:206-219 | `count` is the size of the map |
| `MapRuns.AnswersMean` | map.c:206-267 | The answers, from the operations alone: a lookup gives the value last put under the name unless it was removed since, a removal tells whether there was one |
| `MapRuns.PairsPutCounts` | map.c:206-219 | A pair changes hands as often as an operation puts it |
| `MapIteration.Iterator.MoveOn` | map.c:277-311 | Returns the first pending entry, re-examining the current slot when its entry has changed, and ends only when none is pending |
| `MapIteration.WalkRemoves` | map.c:179-204 | Removing the entry just returned pulls no pending entry behind the cursor |
| `MapIteration.WalkEnds` | map.c:277-311 | At the end everything stored at the start has been returned |
| `MapIteration.Walk` | map.c:269-311 | A walk with any removals of returned entries and no resize skips nothing that was stored at the start and returns nothing else; each entry exactly once if none or all are removed; in the end exactly the entries to be removed are gone |
| `MapIteration.Step` | map.c:277-311 | One round of such a walk |
| `TreeShaking.Script.FindPrevSibling` | script.c:1093-1105 | The last node before `n` in its list |
| `TreeShaking.Script.Reparent` | node_if.c:173-179 | Every spliced node gets the new parent and the list ends at the following sibling |
| `TreeShaking.Script.SpliceOut` | node_if.c:162-187 | The rewiring of links replaces a node in its sibling list by another list, order kept, nothing else touched |
| `TreeShaking.Script.PullIf` | node_if.c:189-222 | A true condition: the rest of the children replaces the rule and its else-bag |
| `TreeShaking.Script.PullElse` | node_if.c:151-187 | A false one: the children of the else-bag, or nothing |
| `TreeShaking.Script.InSourcesInit` | node_in_sources.c:5-30 | The children replace the wrapper |
| `TreeShaking.Script.IfInit` | node_if.c:224-238 | Fails exactly without a plain node as condition: none, a rule and an else-bag are errors; otherwise the condition is initialized and the right list pulled in |
| `TreeShaking.Script.NodeInit` | script.c:648-684 | Initializing the node the loop stands on, with its list rewired underneath the loop |
| `TreeShaking.Script.InitSubnodes` | script.c:617-628 | The fixpoint loop over a list that changes under it computes the pure flattening, and terminates |
| `TreeShaking.Script.InitDefault` | script.c:648-684 | An ordinary node: children first, then its own callback |
| `TreeShaking.Script.Init` | script.c:648-684 | A whole script: the heap holds exactly the recursive flattening of the tree, every survivor is initialized, the callbacks ran in the stated order, and those of survivors in the order of the tree, children first |
| `Forests.ShakeIsLexical` | node_if.c:151-238 | With each else right behind its if, splicing while iterating gives the lexical reading of the script |
| `Forests.NoRuleLeft` | node_if.c:224-238 | No if and no in-sources is left |
| `Forests.InitializedOnce` | script.c:648-684 | No callback runs twice; every surviving node is initialized and is a distinct node of the script |
| `Forests.LexicalAppend` | node_in_sources.c:5-30 | The lexical reading of a joined list is the joined reading |
| `Forests.ShakeAppend` | node_if.c:189-222 | A well placed list behind another is initialized behind it and on its own |
| `Forests.ChildrenFirst` | script.c:648-684 | The surviving nodes are initialized in the order of the resulting tree, each after everything below it |
| `Forests.ConditionedSucceeds` | node_if.c:224-238 | If every if-rule has a plain node in front, initialization succeeds whatever the conditions say |
| `Forests.OkStep` | node_if.c:224-238 | When initialization succeeds, construct by construct |
| `Forests.TrueStep` | node_if.c:189-222 | A true condition: what the loop goes on with, and the order of the callbacks |
| `Forests.FalseStep` | node_if.c:151-187 | A false condition: the children of the else-bag, or what follows the rule |
| `Forests.OtherStep` | script.c:648-684 | Every other node: in-sources before its children, an ordinary one after them |
| `Paths.NeedsNormalize` | paths.c:74-94 | On absolute paths: true exactly when the path is not its own canonical form |
| `Paths.CleanIsNormal` | paths.c:104-116 | The fast path agrees: a clean absolute path is its own canonical form |
| `Paths.CleanMeansNormal` | paths.c:74-94 | An absolute path passes the scan if and only if it is canonical |
| `Paths.SplitSegments` | paths.c:127-160 | The in-place scan with its stack computes the segments the path means |
| `Paths.NormalizeCwd` | paths.c:104-175 | The canonical form of the joined path, exactly truncated at the buffer size; the canonical form of the path itself whenever it fits; begins with a slash, holds no two in a row and none at the end; ends the process exactly for an absolute path, or a directory of a relative one, that is too long |
| `Paths.FoundIsMeaning` | paths.c:104-125 | Within the buffer size nothing is lost |
| `Paths.NumSegments` | paths.c:426-437 | Counting slashes counts segments |
| `Paths.Agree` | paths.c:459-475 | The lockstep scan finds the length of the longest common segment prefix |
| `Paths.Spell` | paths.c:477-492 | The text built is the relative path, whose text is `Paths.RelativeText` |
| `Paths.RelativizeCwd` | paths.c:447-493 | The relative path from one place to the other; normalizing it from the first gives the second. Its text: ".." for each segment to leave, then the rest of the target, joined by single slashes, with none in front or at the end, and "." for the place itself |
| `Paths.RelativeText` | paths.c:477-492 | The text of the relative path of any two segment lists |
| `Paths.RenderIsTidy` | paths.c:161-173 | The text of a canonical path |
| `Paths.IsPrefixFor` | paths.c:510-537 | Never wrong about segments; on canonical paths it holds exactly for segment prefixes and returns the joined remaining segments |
| `Paths.Remainder` | paths.c:519-536 | The part after the path has been made absolute |
| `PathAlgebra.NormalIdempotent` | paths.c:104-175 | Normalizing is idempotent |
| `PathAlgebra.RenderInjective` | paths.c:104-175 | Different segment lists have different canonical paths |
| `PathAlgebra.MeaningIsNames` | paths.c:127-160 | No empty, "." or ".." segment survives |
| `PathAlgebra.RelativizeNormalize` | paths.c:447-493 | Relativizing and then normalizing is the identity, for all paths |
| `PathAlgebra.RelativeLeadsBack` | paths.c:447-493 | Going up and down along the relative path arrives |
| `PathAlgebra.SegsAround` | paths.c:127-140 | Splitting distributes over joining with a slash |
| `CompileLoop.Jobs.Compile` | node_cc.c:225-282 | For whatever running task each wait reports: the log is disciplined and complete, and `num_failed` and `fmap` grow by exactly the sources that cannot be spawned or exit badly |
| `CompileLoop.Jobs.Fill` | node_cc.c:235-255 | Tasks are started until no slot is free or no source is left |
| `CompileLoop.Jobs.Reap` | node_cc.c:261-280 | A finished task leaves the pool and its failure is counted and noted |
| `CompileLoop.Bounded` | node_cc.c:235-255 | At every moment at most `max_jobs` tasks run, and sources are attempted in list order |
| `CompileLoop.EveryMoment` | node_cc.c:225-282 | Every prefix of a disciplined log is disciplined |
| `CompileLoop.NoIdleWait` | node_cc.c:257-264 | The loop waits only with a task running, and with a free slot only after every source was attempted |
| `CompileLoop.Ledger` | node_cc.c:235-280 | A source is attempted at most once; what was started runs until it ends |
| `CompileLoop.OnceEach` | node_cc.c:225-282 | After the loop each source was attempted exactly once and each started task ended exactly once |
| `CompileLoop.FailuresCounted` | node_cc.c:247-275 | The failure counter counts the failed sources |
| `CompileLoop.FailedEnds` | node_cc.c:247-275 | A source is in the failure set exactly if a failing event of it was seen |
| `CompileLoop.VerdictIsFixed` | node_cc.c:225-282 | The set of failures does not depend on the order of the waits: it holds the sources that cannot be spawned or whose compiler does not exit with 0 |
| `CcRule.Locate` | node_cc.c:373-376 | The path a source is recorded under, truncation and fatal lengths included |
| `CcRule.Split` | node_cc.c:285-320 | Picks, in declaration order, all sources when anything but a source is outdated, and otherwise those named; interfaces apart from the rest |
| `CcRule.CompilePicked` | node_cc.c:358-366 | Interfaces one at a time first, the rest only if none failed and at most `max_parallel_jobs` at once, or one if that is not positive; the failure map holds exactly the broken sources |
| `CcRule.WriteSources` | node_cc.c:368-385 | The records of all sources, failed ones without their headers |
| `CcRule.OnResolve` | node_cc.c:322-393 | The whole callback: both passes, the failure map, and the new dependency file record by record: every script file, consumed file, module file and value, and each source with its failure or its headers; the process ends only when a path is too long |
| `CcRule.AddToolchain` | script.c:1233-1248 | The records of the active target follow those of the rule |
| `CcRule.ImportersWait` | node_cc.c:356-366 | In every interleaving, before any importer starts every selected interface has finished successfully |
| `CcRule.PoolBound` | node_cc.c:330-366 | At every moment of the two passes: how many compilers run, and that the rule waits only when that many run or all sources are begun |
| `CcRule.EntriesAre` | node_cc.c:342-387 | Exactly the files, values, sources and headers of the rule are recorded |
| `CcRule.HeaderEntriesAt` | node_cc.c:381-383 | Headers are recorded in the order listed |
| `CcRule.HeaderEntriesHold` | node_cc.c:381-383 | Each listed header is recorded under its source, and nothing else is |
| `Incremental.RunBuild` | node_cc.c:534-556 | The code, from reading the old dependency file to the new one, takes a step of the state machine of edits and builds, in which all sources that name one file share its object and its header list; it ends the process only when a path to be recorded is too long |
| `Rebuilds.EveryBuild` | node_cc.c:285-393 | Over every history of edits with growing times, removals and builds, with interfaces that may differ from build to build, a build compiles each source whose object is stale and that was safe in the builds before it; safety is a condition on the declared paths and the interfaces |
| `Rebuilds.EveryBuildIsPrecise` | node_cc.c:285-320 | In every history a build that does not compile everything compiles only sources whose object is stale or whose file is recorded as failed |
| `Rebuilds.UndoneIsRetried` | node_cc.c:356-385 | Whatever made it selected, a safe source whose file failed or was skipped after an interface failure is in the next compile set |
| `Rebuilds.GoodBuildIsCurrent` | node_cc.c:322-393 | A build without failures leaves no object of a safe source stale |
| `Rebuilds.AlwaysInv` | script.c:1276-1349 | Every state of every history satisfies the invariant that ties records, header lists and object times together |
| `Rebuilds.AlwaysTracked` | node_cc.c:368-385 | The object of a source that was safe so far is up to date as recorded, or a failure is recorded that no later record hides |
| `Rebuilds.StaleIsChosen` | node_cc.c:285-320 | A tracked source whose object is stale is compiled by the next build |
| `Rebuilds.LeadingIsAll` | script.c:1286-1316 | A stale record without source flag makes everything outdated unless a source record of the same file stands before it, repeats skipped or not |
| `Rebuilds.HiddenBehind` | script.c:1286-1316 | A stale record that does not make everything outdated is a repeat: a stale source record of the same file stands before it, and nothing else is reported between them |
| `Rebuilds.PairIsMasked` | script.c:1286-1316 | When two files are outdated and the rule still does not compile everything, each interface of one has a plain source of its file before it, with no source of the other between them |
| `Rebuilds.FailureIsChosen` | node_cc.c:296-312 | A recorded failure of the source, or of an interface that leads, is enough |
| `Rebuilds.ChangeIsChosen` | deps.c:85-99 | A source or header that has changed since it was recorded is enough |
| `Rebuilds.OthersNeedAll` | node_cc.c:563-587 | A source under another spelling is compiled only when everything is |
| `Rebuilds.OnlyAffected` | node_cc.c:296-312 | Short of everything, a compiled source is spelled canonically and its object is stale or its file recorded as failed |
| `Rebuilds.BuildLeaves` | node_cc.c:368-385 | What a build leaves on file: every record belongs to a source in declaration order or has no source flag, and every source has its records |
| `Rebuilds.SourcesAgree` | node_cc.c:371-383 | All sources of one file have the same records, since they share object and header list |
| `Rebuilds.BuildTracks` | node_cc.c:356-385 | After a build the object of a safe source is up to date and recorded so, or a failure is told on the source, also when another spelling of the file was compiled instead |
| `Rebuilds.BuildAccounts` | node_cc.c:368-385 | After a build every source record belongs to a file that is stale, has failed, or is built as recorded |
| `Rebuilds.SkipIsTold` | node_cc.c:360-378 | A safe source that was selected, but no source of its file compiled, leaves a failure behind that makes the next build compile it |
| `Rebuilds.UnshadowedLeads` | node_cc.c:368-385 | No source record of the same file stands before the records of an interface listed before all plain namesakes |
| `Rebuilds.RecordsCover` | node_cc.c:368-385 | A file that did not fail is recorded with all the files behind its object, under a record that no source record hides |
| `Rebuilds.RecordedPlace` | node_cc.c:375-378 | The relative path handed to the record is turned back into the canonical source |
| `Rebuilds.BuildKeeps` | script.c:1276-1349 | A build keeps the invariant |
| `Rebuilds.FilesKeep` | deps.c:85-99 | Edits with later times and removals keep it |
| `RuleInputs.NextIsCalled` | script.c:1276-1330 | After a build the rule is called again if and only if a script file, consumed file or module file is newer or gone, a value or the target or its description differs, a source or header is newer or gone, a source failed, a target is new, or nothing was recorded |
| `RuleInputs.EveryCall` | script.c:1276-1330 | The same over every history, told by the last build that called the rule |
| `RuleInputs.HeadingIsAll` | node_cc.c:291-312 | A changed script file, value or consumed file makes the next build compile everything |
| `RuleInputs.ModuleIsAll` | node_cc.c:291-312 | So does a changed module file, unless a plain source of that name stands before it |
| `RuleInputs.TargetIsAll` | node_cc.c:291-312 | So does a target or toolchain description that is not as recorded |
| `RuleInputs.EntriesExpire` | deps.c:83-122 | What is on record expires exactly when one of the things named by the rule has changed |
| `RuleInputs.FailedIsBroken` | node_cc.c:368-378 | The files recorded as failed are those of which some source failed |
| `RuleInputs.UnitsOnRecord` | node_cc.c:342 | Script files are recorded first, in order |
| `RuleInputs.ValuesOnRecord` | node_cc.c:343-349 | Then the values that are there, each with its number |
| `RuleInputs.ConsumesOnRecord` | node_cc.c:351-354 | Then the consumed files, in order |
| `RuleInputs.ModulesOnRecord` | node_cc.c:387 | Module files come last, but for the target |
| `MissedSource.NeverMissedMeansSafe` | node_cc.c:285-320 | With given interfaces a source is compiled by every build of every history in which its object is stale, if and only if it is safe |
| `MissedSource.NeverLeftMeansSafe` | node_cc.c:285-320 | No build of any history leaves the stale object of a file behind, with none of its sources compiled, if and only if some source of the file is safe |
| `MissedSource.PlainRuleNeedsCanonical` | node_cc.c:573-579 | Without interfaces: a source is never missed if and only if it is spelled canonically, and no stale object is left behind if and only if some source of the file is |
| `MissedSource.EditIsMissed` | node_cc.c:573-579 | Any source spelled otherwise, in any rule without interfaces: built, edited, and not compiled by the next build |
| `MissedSource.HeaderIsMissed` | node_cc.c:306-312 | If the first source of a file is plain, all its sources that are spelled otherwise are missed when a header they share changes |
| `MissedSource.FailureIsMissed` | script.c:1286-1290 | A file without interfaces is left behind, under every spelling, after the failure of an interface whose file is listed before it as a plain source: the failure record is skipped as a repeat |
| `MissedSource.TwinIsMissed` | node_cc.c:306-312 | So is a file listed as a canonical plain source and as an interface under another name, if some canonical interface of another file is masked along with it |
| `MissedSource.PairIsHidden` | script.c:1286-1316 | When two files that mask each other are outdated, and nothing else, every record of an interface is a repeat of a source record |
| `MissedSource.OddSpellingIsMissed` | node_cc.c:573-579 | A history of three events in which the edited source /p/./a.c is stale, the rule runs, and the source is not compiled |
| `MissedSource.ImporterIsMissed` | cxx_modules.c:317-325 | A history in which /p/b.cpp is not compiled after the failure of /p/./a.cpp, since that file is also the plain source /p/a.cpp |
| `MissedSource.MaskedTwinIsMissed` | node_cc.c:306-312 | A history in which the stale object of /p/a.cpp is left behind although that file is an interface too, under the name /p/./a.cpp |
| `TargetSwitch.NewTargetSelects` | script.c:1322-1332 | A target that becomes active and was not recorded makes the rule run; a source is compiled if and only if nothing is outdated, or something that is no source, or the source is canonical and outdated itself |
| `TargetSwitch.NewTargetSelectsAll` | node_cc.c:291-312 | Everything is selected if and only if the outdated list is empty, holds a record that is not of a source, or names every source |
| `TargetSwitch.NewTargetRebuilds` | node_cc.c:291-312 | When nothing fails, an object is compiled for the new target exactly under that condition on its file; any other stays as it was compiled before |
| `TargetSwitch.TargetIsHalfApplied` | script.c:1322-1332 | A native build, the edit of one file, a build for a target: only sources of that file are compiled, and the next build for the target finds nothing to do |
| `NodeResolve.Resolver.Resolve` | script.c:1250-1337 | For any dependency file, on_resolve is called if and only if it is forced or nothing was recorded, some record is outdated, those of the kind that always is among them, or a target is active and none was recorded; the outdated list is the one specified. For files whose lines show type and flags the records are those of the format |
| `NodeResolve.Resolver.ScanFile` | script.c:1276-1316 | Reading to the end counts, judges and collects every record |
| `NodeResolve.Resolver.Consider` | script.c:1278-1315 | One record: the skip of repeats and the judgement |
| `NodeResolve.NextRecord` | deps.c:30-81 | The reader walks through the records of a file one by one |
| `NodeResolve.SkippingKeepsDecision` | script.c:1286-1290 | Skipping repeats of the last outdated resource never changes whether something is reported |
| `NodeResolve.ReportedPrefix` | script.c:1276-1316 | What has been reported stays reported |
| `NodeResolve.ReportedPaths` | script.c:1286-1315 | The reported paths are exactly the resources of the outdated records, repeats skipped or not |
| `NodeResolve.ReportedIsStale` | script.c:1286-1315 | Everything reported is outdated as recorded |
| `NodeResolve.StaleMeansChanged` | deps.c:83-122 | A record is outdated later exactly when what it watches has changed |
| `NodeResolve.WriteReadCheck` | deps.c:83-185 | Written, read back and checked: outdated exactly if something changed |
| `NodeResolve.NullBuild` | deps.c:83-185 | Nothing changed: nothing is reported |
| `NodeResolve.WriteThenResolve` | script.c:1250-1337 | One run writes any storable dependencies, the next reads them and calls on_resolve if and only if there were none, one of them has expired, or a target is active and none was recorded; expiry is a condition on files and values for each kind |
| `NodeResolve.FileExpires` | deps.c:83-185 | What is written and read back is outdated exactly if an entry has expired |
| `NodeResolve.RecordExpires` | deps.c:83-122 | The same for each record |
| `DepsFile.Deps.constructor` | deps.c:16-28 | An opened file is read from its beginning |
| `DepsFile.Deps.Next` | deps.c:30-81 | The in-place dissection of a line yields the record the format defines, or fails on a bad number |
| `DepsFile.Deps.TakeApart` | deps.c:41-76 | First separator ends the alias, last one the resource |
| `DepsFile.Deps.Scan` | deps.c:57-66 | The scan and what it writes into the buffer |
| `DepsFile.Deps.ReplaceChars` | utils.h:21-27 | Marks become line breaks up to the terminator |
| `DepsFile.Deps.Fgets` | deps.c:33-35 | One line, or as much as the buffer takes |
| `DepsFile.Deps.Add` | deps.c:124-185 | One line is appended, with canonical paths and the time of the watched file; the read position stays |
| `DepsFile.StampWritable` | deps.c:124-160 | Admissible arguments make a record that survives the file |
| `DepsFile.CutApart` | deps.c:57-70 | After the cuts the strings of the record stand where the fields point |
| `DepsFile.FileReadBack` | deps.c:124-185 | Any list of storable records is read back as written |
| `DepsFormat.LineReadBack` | deps.c:30-81 | One record, with empty values, line breaks in values and separators inside the resource |
| `DepsFormat.FaithfulWhenUnmixed` | deps.c:44-70 | A record comes back if and only if its key holds no separator and its marked texts hold no mark |
| `DepsFormat.NumberReadBack` | utils.c:483-493 | A printed 64 bit number is read back, with or without the line break |
| `DepsFormat.NumberRead` | utils.c:483-493 | What the number reader takes: spaces, a sign, digits with zeros in front, an end or a line break behind, and 64 bits |
| `DepsFormat.NoNumberRead` | utils.c:483-493 | Without digits only the empty text and one that begins with a line break are taken, as 0 |
| `DepsFormat.DecimalDigits` | deps.c:170-177 | The number is written in decimal, with no digit too many |
| `DepsFormat.LineTaken` | deps.c:41-76 | Any line with separators: which texts become alias, resource and number |
| `DepsFormat.ShortLineTaken` | deps.c:57-76 | A keyed line with one separator or none |
| `DepsFormat.OneLine` | deps.c:170-177 | What is written is one line |
| `UList.Live` | ulist.c:11-221 | From a list that was initialized or left zero, any mix of operations leaves what they make of a plain sequence |
| `UList.RemoveByMisreports` | ulist.c:212-221 | Push 7, push 8, shift: the position of 8 is 0 and ulist_remove_by answers 1 |
| `UList.List.Push` | ulist.c:115-125 | Append, in a block that grows when full by the number of elements and one |
| `UList.List.Pop` | ulist.c:127-143 | Drop the last; a block of more than 32 that is at most half used is cut to the elements or to 32 |
| `UList.List.Unshift` | ulist.c:151-165 | Prepend, moving the elements to the end of the block when there is no room in front |
| `UList.List.Shift` | ulist.c:167-185 | Drop the first, shrinking |
| `UList.List.Insert` | ulist.c:69-85 | Insert at any position |
| `UList.List.Remove` | ulist.c:95-113 | Remove at any position, shrinking |
| `UList.List.Set` | ulist.c:87-93 | Replace one element |
| `UList.List.Get` | ulist.c:57-63 | Read one element |
| `UList.List.IndexOf` | ulist.c:202-210 | The first position of an element |
| `UList.List.RemoveBy` | ulist.c:212-221 | Removes the first occurrence; what is returned is its position exactly if the list began at the start of its block |
| `UList.List.Clone` | ulist.c:187-200 | A separate list with the same elements |
| `UList.Undone` | ulist.c:69-185 | What one operation undoes of another |
| `UList.PositionsMean` | ulist.c:69-113 | Insert, remove and set at a position, element by element; out of range nothing happens |
| `UList.FirstGoes` | ulist.c:212-221 | Removal by value takes the first occurrence and nothing else |
| `Pool.Serve` | pool.c:57-69 | Over any run, from an arena with or without a first unit, the blocks are aligned, inside their units and pairwise disjoint, and the n-th unit has at least 2^n - 1 bytes |
| `Pool.Arena.Alloc` | pool.c:57-69 | A new block apart from all before, behind the last one of its unit; a new unit exactly when it does not fit, of the size stated; null only when nothing is asked of an arena without units |
| `Pool.Arena.Extend` | pool.c:46-55 | A rounded unit more than twice as large as the last |
| `Pool.Arena.Preallocated` | pool.c:19-23 | An arena with a first unit |
| `Pool.UnitsAreFew` | pool.c:57-66 | The number of units is logarithmic in the size of the largest |
| `Pool.BlockAdded` | pool.c:66-68 | Bumping the cursor keeps all blocks apart |

## Left out

- Include, macro, call, foreach expansion and the parser: the model starts from a built tree and fixed conditions.
- `node_post_build`, `setup` and the other rule types: straight-line code around the same traversals.
- The registration of products: the owner of a path is a fixed function of the tree.
- Process creation, pipes and `wait` reporting a foreign process: the loop would ignore it and wait again.
- Bit masks: `hash & mask` is the remainder by the power-of-two capacity; the concrete FNV hash and 32-bit counters are not modelled.
- Iteration while the map is resized: nothing is promised there, so the walk is given up.
- The parsing of compiler generated header lists: their content after a compilation is a parameter, and it stays as it was for sources that are not compiled.
- Files edited while compilers run: a build sees one file system state.
- Node values that are null are not recorded, and a value that changes between the check and the record is not modelled.
- Rebuilds.EveryBuild: assumes that the paths of sources fit their buffers, since records of truncated paths name other files. Builds whose records cannot be stored are no steps of a history either: a path with a line break, a node value with a character 2, which stands for a line break in the file, or a record line longer than the read buffer.
- Incremental.RunBuild: promises a step of the state machine only for builds whose records can be stored, in the same sense.
- Objects are named by the source file: the object path replaces the extension, so `a.c` and `a.cpp` of one directory would share one, and a rule is assumed not to list both. A target the object was compiled for is not part of its staleness; what a new target does is stated in `TargetSwitch`.
- Two sources of one file compiled in the same build: the object counts as built when all of them succeed and as absent when one fails.
- MissedSource.NeverMissedMeansSafe: the direction from never missed to safe assumes that paths hold no line break and that some other file can serve as a header.
- DepsFile.Deps.Next: says nothing about the record of a line that shows fewer than two characters, for which the reader looks at what an earlier line has left in its buffer; this program never writes one.
- NodeResolve.Resolver.Resolve: for a file with such a line the records are those the reader shows, whatever they are.
- BuildEngine.Session.Build: whether a file exists is asked once per request, and the answer is part of the request.
- Strings are sequences of characters; buffers of paths are values, with the truncation at PATH_MAX stated exactly.
- The element size and the byte copies of the list: elements are values of any type; list overflow of sizes is not modelled.
- Addresses of the arena: a block is a unit and an offset, and units are assumed to be allocated on 8-byte boundaries.
- Object file tags, the compilation database and the module map: written next to the modelled steps and never read by them.
- Separated lists, word splitting and JSON escaping: small codecs that would add only easy members.
