# Protected VM: a verified model

The Protected VM loads signed bytecode modules, checks and runs them, shows their UI
through incremental updates, keeps their state across upgrades, and delivers new
releases to devices. This project models these parts and proves what they promise.

- `Bytecode`, `HandlerVerifier`, `Interpreter`, `FrameTypes`, `RunLedger`, `RunSafety`,
  `Runtime`, `Lookups`: the module, the two handler checkers, and the interpreter. `Interpreter`
  says what one event does; the class in `Runtime` runs the loops over its fields and is
  proved to do just that; the safety results range over all runs of all events.
- `UiTree`, `UiDelta`, `UiPatch`, `UiBatch`, `SwiftUiTree`, `UiAgreement`, `RenderRuns`:
  revisions, the choice between patch and replacement, the decoder's checks, the path
  copying host, and the agreement of all views over whole runs.
- `ByteCodec`, `StateCodec`, `Migration`: bytes, state snapshots in both layouts, upgrades.
- `Codecs`, `Elements`, `Format`, `Payload`, `PayloadRoundTrip`: the payload format as
  pairs of printers and parsers, inverse both ways. `PayloadReader`, `NodeReader` and
  `Loader` are the loader's loops over one reader, proved equal to that parser.
- `Templates`, `Dsl`, `SourceTypes`, `Compiler`, `Writers`, `Builds`, `CompiledModules`: the
  compiler, from the application description to bytes, and what the runtime may rely on.
  `Counter` follows one sample application through all of it.
- `DeviceStore`, `ModuleStore`, `ReleaseServer`, `Fleet`: one refresh as a list of disk
  states, both store implementations, the repository, and all of them together.

A host of the interpreter answers every call from the whole history of calls, so the
results hold for every host that does not call back into the runtime. History fields
(`History`, `steps`, `published`) only observe. A text is a byte string, Python's by its
UTF-8 encoding. Hashes, signatures, the size of an encoded record, directory order and
the preload check are parameters; what is assumed of them is stated where they are used
(`ClientOk`, `KeysOk`, `SizesOk`, `RecordsFit`). No collision freedom is assumed of the hash:
it is enough that manifests state one size for each digest.

Where the code differs from what one might read into its documentation, the code is
followed: revisions restart at 1 for a page that comes back (only nodes of consecutive
snapshots are compared), and a restored state may exceed `max_state_bytes`. `Migration`
gives inputs for both layouts, the bounds, and the exact condition on a snapshot's bytes
under which the state stays within the budget (`RestoredWithinBudget`).

`dafny verify dfyconfig.toml` checks the whole project.

## Model

| member | source | states |
|---|---|---|
| HandlerVerifier.Propagate | client/src/runtime.cpp:498-520 | one worklist step: it accepts exactly when every successor is in range and free or already typed the same, and queues each newly typed successor once |
| HandlerVerifier.ValidateHandler | client/src/runtime.cpp:415-525 | terminates and accepts exactly when the size is in range and some consistent stack typing starts empty at pc 0 and stays within max_stack; an accepted handler has a least such typing, and the loop has visited exactly the pcs it types, each once |
| HandlerVerifier.Extend | server/src/pvm_server/compiler.py:567-574 | the dictionary form of the same step, with the same exact acceptance condition |
| HandlerVerifier.FindHalt | server/src/pvm_server/compiler.py:575 | finds a halt exactly when the handler holds one |
| HandlerVerifier.CheckHandler | server/src/pvm_server/compiler.py:517-575 | accepts exactly when the handler has a halt and some consistent typing exists, and returns the least such typing |
| HandlerVerifier.CheckersAgree | client/src/runtime.cpp:415-525 | what the compiler rejects for its types the runtime rejects; what the compiler accepts the runtime accepts exactly when the least typing fits max_stack |
| FrameTypes.ExecuteSound | client/src/runtime.cpp:1108-1219 | one instruction of a typed frame leaves a typed frame, a typed suspended frame or an external error, never an internal one |
| FrameTypes.StepSound | client/src/runtime.cpp:1098-1224 | one round of the loop, watchdog and stack budget included, keeps every frame typed and raises no internal error |
| FrameTypes.ResumedTyped | client/src/runtime.cpp:898-901 | a suspended frame matches the typing at its pc once the string result is pushed |
| RunSafety.TypeSoundness | client/src/runtime.cpp:1098-1224 | in every run of a loaded module, under every interleaving of start, dispatch, completion, cancellation and restore, every suspended frame has at its pc the stack that every consistent typing, so also the verifier's table, gives it, and no event ends in underflow, an escaped pc, a wrong variant, an index out of range or the stack budget error |
| RunSafety.HandleKeeps | client/src/runtime.cpp:854-904 | every event keeps all run invariants together: types, task ledger, instruction accounts, state bound, event values |
| RunLedger.StepKeeps | client/src/runtime.cpp:1098-1224 | one round keeps the ledger of asynchronous tasks, the accounts, the size bound and the event-value rule |
| RunSafety.WatchdogBounds | client/src/runtime.cpp:1104-1106 | the instructions executed for one event, summed over all its suspensions, never exceed the limit |
| RunSafety.TasksConserved | client/src/runtime.cpp:1183-1208 | at most max_tasks are pending, IDs are fresh and increasing, and each started task is in exactly one of pending, resumed, cancelled or refused |
| RunSafety.NoSecondResume | client/src/runtime.cpp:894-901 | completing a task that was resumed, cancelled or refused changes nothing and fails |
| RunSafety.StateSizeBound | client/src/runtime.cpp:1124-1137 | the state stays within its budget over every run whose accepted restores all pass the check of KeepsBudget on their bytes; with layout-1 restores within 7 bytes more per boolean; always within the larger bound that layout 2 allows |
| RunSafety.NoMissingEventValue | client/src/runtime.cpp:1113-1119 | with safe bindings and a value on every change and submit, no run, resumed frames included, misses the event value |
| Runtime.Runtime.constructor | client/src/runtime.cpp:849-852 | a fresh runtime holds the initial state, no task, no snapshot, and draws task ID 1 first |
| Runtime.Runtime.Render | client/src/runtime.cpp:1249-1264 | sets the page, revises the snapshot against the last one, skips or delivers it, and stores it only after the host took it |
| Runtime.Runtime.Run | client/src/runtime.cpp:1098-1224 | the loop over pc and stack ends and computes the specified run |
| Runtime.Runtime.Assignment | client/src/runtime.cpp:1124-1137 | assigns a state slot exactly when type and projected size allow it |
| Runtime.Runtime.CallCapability | client/src/runtime.cpp:1164-1182 | passes the arguments in push order and accepts only string results within budget |
| Runtime.Runtime.PopArguments | client/src/runtime.cpp:1165-1170 | popping and reversing gives the top of the stack in push order |
| Runtime.Runtime.BeginTask | client/src/runtime.cpp:1183-1200 | draws the next ID and parks the frame behind the instruction |
| Runtime.Runtime.LaunchTask | client/src/runtime.cpp:1200-1207 | announces the parked frame and withdraws it again when the host refuses |
| Runtime.Runtime.Execute | client/src/runtime.cpp:1092-1096 | enters a handler with an empty stack and a fresh instruction account |
| Runtime.Runtime.Start | client/src/runtime.cpp:854-864 | runs once, entry handler or entry page |
| Runtime.Runtime.Dispatch | client/src/runtime.cpp:870-882 | finds the first matching binding of the current page and enters its handler |
| Runtime.Runtime.CompleteEffect | client/src/runtime.cpp:884-902 | takes the parked frame out and resumes it with the result, or changes nothing |
| Runtime.Runtime.CancelAllTasks | client/src/runtime.cpp:904 | every pending task becomes cancelled |
| Runtime.Runtime.SnapshotState | client/src/runtime.cpp:906-938 | writes the specified snapshot bytes, or refuses them |
| Runtime.Runtime.RestoreState | client/src/runtime.cpp:940-1041 | a rejected restore leaves the state untouched; an accepted one installs exactly the specified state |
| Runtime.Runtime.RestoreOrdered | client/src/runtime.cpp:949-986 | the layout-1 loop computes the specified fields |
| Runtime.Runtime.RestoreByIdentity | client/src/runtime.cpp:987-1041 | the layout-2 loop computes the specified migration |
| Runtime.Runtime.Migrate | client/src/runtime.cpp:1024-1036 | initial values overwritten by every persisted value of the same ID and type |
| StateCodec.SnapshotRoundTrip | client/src/runtime.cpp:906-1041 | restoring the snapshot of any state within budget gives the same state, in both layouts |
| StateCodec.SnapshotExact | client/src/runtime.cpp:906-938 | saving succeeds exactly on states without an overlong string whose string lengths leave room in the size limit, within the state budget or over it |
| StateCodec.SizeCheckNeverFires | client/src/runtime.cpp:933-936 | within the state budget a snapshot fails only on a string of more than 65535 bytes |
| StateCodec.ValueRoundTrip | client/src/runtime.cpp:917-931 | each value, two's complement integers included, reads back as written |
| Migration.UpgradeByIdentity | client/src/runtime.cpp:987-1041 | from any state, over budget or not, an upgrade from a version with stable IDs succeeds exactly when the state can be saved, its persisted total fits the new budget, shared IDs keep their types and some ID is shared; the result is then the carried-over state and nothing else |
| Migration.CarriedValues | client/src/runtime.cpp:1024-1040 | carried over: every shared ID keeps its value and every other field starts from its initial value, whatever the order of the fields |
| Migration.UpgradeInOrder | client/src/runtime.cpp:949-986 | from a version without stable IDs the upgrade succeeds exactly when the state can be saved, schema and types are the same and the total fits, and then gives the same state |
| Migration.ChainExact | client/src/runtime.cpp:906-1041 | a chain of upgrades of any length goes through exactly when each step meets that condition on the state carried so far, and ends in the carried state |
| Migration.ChainKeepsData | client/src/runtime.cpp:1024-1040 | an ID declared by every version of a chain of any length keeps its value to the end |
| Migration.RestoredStateBound | client/src/runtime.cpp:953-1019 | a restored state exceeds the budget by at most 7 bytes per boolean in layout 1, and by one more budget in layout 2 |
| Migration.LayoutOneAccepts | client/src/runtime.cpp:949-986 | layout 1 takes back a state exactly when it fits with booleans counted as one byte |
| Migration.RestoredWithinBudget | client/src/runtime.cpp:949-1019 | of all snapshots a module accepts, in either layout, exactly those that pass a check on their bytes leave the state within max_state_bytes: the length in layout 1; the declared entries plus the initial values no entry replaces in layout 2 |
| Migration.LayoutOneWithinBudget | client/src/runtime.cpp:949-986 | the layout-1 half: the length of an accepted snapshot decides |
| Migration.LayoutTwoWithinBudget | client/src/runtime.cpp:987-1036 | the layout-2 half: declared entries and unreplaced initial values must fit together |
| Migration.CarriedSize | client/src/runtime.cpp:1024-1036 | an upgrade costs the shared values plus the initial values of the new fields, however the two versions order them |
| Migration.OwnSnapshotWithinBudget | client/src/runtime.cpp:906-1041 | a saved state that its module accepts back comes back as it was, and the length of its snapshot decides whether it is within the budget, in both layouts |
| Migration.LayoutOneExceeds | client/src/runtime.cpp:969-979 | witness: each budget from 8 to 65536 accepts a layout-1 snapshot whose state is 7 bytes over |
| Migration.LayoutTwoExceeds | client/src/runtime.cpp:1024-1036 | witness: whatever modules the two versions are, adding a field whose initial value of up to 65535 bytes fills the budget leaves twice the budget after an accepted upgrade, and a state that cannot be saved |
| UiTree.IndexNodes | client/src/runtime.cpp:803-810 | indexes a snapshot, the first node of an ID winning |
| UiTree.AssignRevisions | client/src/runtime.cpp:812-837 | the in-place recursion computes the specified tree, or reports exhaustion exactly when a revision would pass 2^64-1 |
| UiTree.RevisionsDecideEquality | client/src/runtime.cpp:812-837 | a surviving node keeps its revision exactly when its whole subtree is unchanged and otherwise gets the next one |
| UiTree.UnchangedIsExact | client/src/runtime.cpp:829-832 | an unchanged subtree keeps all its revisions |
| UiTree.RevisionsKeepFitting | client/src/runtime.cpp:833-836 | without the exhaustion error every revision fits 64 bits |
| UiTree.SnapshotSkeleton | client/src/runtime.cpp:1235-1247 | evaluation and revision keep types, IDs and shape of the page |
| UiDelta.Delta.Collect | client/src/c_api.cpp:102-127 | the in-place collection yields exactly the structural flag, the changed nodes and the revised nodes of the specification |
| UiDelta.ReplaceTree | client/src/c_api.cpp:133-189 | sends a patch exactly for wire v2 without a structural change, otherwise the root |
| UiPatch.PatchRefinesReplace | client/platform/ios/swift/PVMSwiftUIRenderer.swift:105-121 | for trees without structural change, applying the changed subtrees at their paths with the ancestor revisions to the old tree gives the new tree, revisions included |
| UiPatch.Sweep | client/platform/ios/swift/PVMSwiftUIRenderer.swift:195-217 | the same for the children processed so far, in document order |
| UiBatch.Index | client/platform/ios/swift/PVMModels.swift:134-152 | the pending-stack traversal succeeds exactly when IDs are unique and then maps every node |
| UiBatch.DecodeBatch | client/platform/ios/swift/PVMModels.swift:49-132 | the decoder accepts exactly the batches that pass its checks and fills its tables from them |
| UiBatch.AllDifferent | client/platform/ios/swift/PVMModels.swift:77-83 | accepts exactly lists without repetition |
| UiBatch.IndexRevisions | client/platform/ios/swift/PVMModels.swift:114-124 | accepts exactly revision lists without a repeated ID and maps each to its revision |
| SwiftUiTree.Tree.Apply | client/platform/ios/swift/PVMSwiftUIRenderer.swift:79-132 | the update of root, paths, visible and appeared IDs and values is the specified one in every branch, errors included |
| SwiftUiTree.Tree.Appear | client/platform/ios/swift/PVMSwiftUIRenderer.swift:134-139 | reports an appearance exactly the first time, and records it |
| SwiftUiTree.AppearanceLasts | client/platform/ios/swift/PVMSwiftUIRenderer.swift:123-139 | whatever batches arrive, a node that has appeared is not reported again while it stays visible |
| SwiftUiTree.VisitFinds | client/platform/ios/swift/PVMSwiftUIRenderer.swift:183-193 | with unique IDs the path index leads to every node |
| UiAgreement.EveryBatchDecodes | client/platform/ios/swift/PVMModels.swift:49-132 | every emitted message of either wire version passes the decoder |
| UiAgreement.TableAgrees | client/src/c_api.cpp:158-166 | the transmitted revisions agree with the new tree and cover every changed ancestor |
| UiAgreement.PatchedRoot | client/platform/ios/swift/PVMSwiftUIRenderer.swift:105-121 | the applier on a decoded patch computes the new root without an error |
| UiAgreement.RenderAgrees | client/src/c_api.cpp:133-189 | after one delivered render v1 and v2 hosts are in the same state and show the new tree |
| UiAgreement.ChangeIsSent | client/platform/ios/swift/PVMSwiftUIRenderer.swift:91-94 | a changed tree without structural change names a changed node, so the empty-batch error is unreachable |
| RenderRuns.PageSwitchIsStructural | client/src/runtime.cpp:367 | unique IDs across pages make every page switch a full root |
| RenderRuns.SkipLosesNothing | client/src/runtime.cpp:1258-1261 | the equal-root-revision shortcut drops only identical trees |
| RenderRuns.RenderShowsState | client/src/runtime.cpp:1249-1264 | after a render without error the last snapshot is the evaluation of the page in the current state |
| RenderRuns.RendersShowState | client/src/runtime.cpp:1098-1264 | inside every handler of every run, resumed ones included, each render instruction without an error leaves the page's evaluation over the state of that moment as the last snapshot, and both hosts in one state that shows it |
| RenderRuns.InsideHandles | client/src/runtime.cpp:854-1224 | a position inside a run is on the way of the event that entered it: handling the event is running on from there |
| RenderRuns.InsideShown | client/src/runtime.cpp:1098-1224 | at every such position the running frame has the stack that every consistent typing gives its pc, and both hosts show the last snapshot |
| RenderRuns.RunIsRounds | client/src/runtime.cpp:1098-1224 | the interpreter loop is its rounds: it goes on where any number of them leaves it |
| RenderRuns.StartShowsEntryPage | client/src/runtime.cpp:854-864 | without an entry handler, a start without an error shows the entry page |
| RenderRuns.HostsAgree | client/src/runtime.cpp:1249-1264 | over every run both hosts accepted every message, agree, and show the runtime's last snapshot |
| Lookups.FindEventExact | client/src/runtime.cpp:1046-1061 | an event reaches exactly the handler to which the node with its ID binds it |
| Lookups.DecimalReads | client/src/runtime.cpp:1397-1400 | numbers are shown in digits without a leading zero that read back as the number |
| Lookups.TextDecidesValue | client/src/runtime.cpp:1397-1405 | the text shown for a state determines its value |
| ByteCodec.CodecI64 | client/src/runtime.cpp:143-149 | reading undoes writing and writing undoes reading for two's complement integers |
| ByteCodec.Codec64 | client/src/runtime.cpp:134-141 | the same for 64-bit words |
| ByteCodec.CodecText | client/src/runtime.cpp:151-157 | the same for texts, with nothing read past the end |
| ByteCodec.Reader.U64 | client/src/runtime.cpp:134-141 | reads the next eight bytes or reports truncation; the position stays inside the input |
| ByteCodec.Reader.Text | client/src/runtime.cpp:151-157 | reads a counted text or reports truncation |
| Elements.InstructionLawful | client/src/runtime.cpp:310-357 | instruction printer and parser are inverse both ways for every format |
| Elements.TypedLawful | client/src/runtime.cpp:261-290 | the same for typed values; uniqueness of the pool makes string indices recoverable |
| Format.NodePutGet | client/src/runtime.cpp:359-413 | a printed node of admissible depth parses back |
| Format.NodeGetPut | client/src/runtime.cpp:359-413 | a parsed node is admissible and prints to the bytes it came from |
| PayloadRoundTrip.ParseOfPrint | client/src/runtime.cpp:527-703 | parsing what is printed for a valid module returns the module, for formats 1 to 5 |
| PayloadRoundTrip.PrintOfParse | client/src/runtime.cpp:527-703 | every accepted payload yields a valid module whose printing is the same bytes |
| PayloadRoundTrip.ParsedIsLoaded | client/src/runtime.cpp:527-703 | whatever the bytes, an accepted module has indices in range, unique IDs, bounded depth, nodes and state, verified handlers, and meets the host's expectation |
| PayloadRoundTrip.SmallestLoads | client/src/runtime.cpp:527-703 | every format has a payload that loads, so the results about loaded modules are not empty |
| Payload.FitsIff | client/src/runtime.cpp:361 | the depth parameter of the parser bounds exactly the depth of the tree |
| PayloadReader.ReadTextTable | client/src/runtime.cpp:300-308 | the loop parses exactly the specified table |
| PayloadReader.ReadTyped | client/src/runtime.cpp:261-290 | reads exactly the specified value |
| PayloadReader.ReadInstruction | client/src/runtime.cpp:310-357 | reads exactly the specified instruction, opcode range and operand checks included |
| PayloadReader.ReadCode | client/src/runtime.cpp:667-674 | reads a whole handler exactly when its size and every instruction are good |
| PayloadReader.ReadHandlers | client/src/runtime.cpp:664-675 | reads all handlers as specified |
| NodeReader.ReadProperties | client/src/runtime.cpp:370-395 | early refusal of a repeated key is the same as refusing the finished list |
| NodeReader.ReadBindings | client/src/runtime.cpp:396-406 | the same for repeated events and unknown handlers |
| NodeReader.ReadNode | client/src/runtime.cpp:359-413 | the recursion with its shared count and ID set accepts exactly the trees that parse, are new to the census and fit the node budget |
| NodeReader.ReadNodes | client/src/runtime.cpp:407-411 | the same for a list of trees |
| Loader.ReadHead | client/src/runtime.cpp:533-591 | the head is read exactly when it parses and meets the expected bindings |
| Loader.ReadStates | client/src/runtime.cpp:636-662 | checking IDs and size while reading is the same as checking the finished table |
| Loader.Unique | client/src/runtime.cpp:626-634 | comparing set and list sizes decides the absence of duplicates |
| Loader.ReadPages | client/src/runtime.cpp:677-686 | the pages parsed with one census satisfy exactly the page rules |
| Loader.ParsePayload | client/src/runtime.cpp:527-703 | the loader, filling the module section by section, computes the parsing function on every byte string |
| Templates.PlaceholderShape | server/src/pvm_server/compiler.py:583 | what the pattern matches at a position |
| Templates.BracedRestores | server/src/pvm_server/compiler.py:577-592 | putting the braces back around every name restores the text |
| Templates.PiecesCoarse | server/src/pvm_server/compiler.py:577-592 | the one-pass split: it glues back to the template, holds no empty text and no two neighbouring texts, except that an empty template is one empty text |
| Templates.TemplateSays | server/src/pvm_server/compiler.py:577-592 | the segments of a template say what it says, whatever the states read |
| Templates.GluedBack | server/src/pvm_server/compiler.py:577-592 | the segments of a template glue back to it |
| Templates.RenderedTemplate | client/src/runtime.cpp:1226-1233 | evaluating compiled segments equals replacing each placeholder by the text of its state |
| Dsl.InternedOnce | server/src/pvm_server/compiler.py:297-302 | the pool holds every string of the description once and no other string |
| SourceTypes.TypingAgrees | server/src/pvm_server/compiler.py:517-575 | either checker types compiled code exactly when the description is well typed, whatever indices the compiler chose |
| Elements.IndexStays | server/src/pvm_server/compiler.py:297-302 | a string keeps its index while the pool grows |
| Compiler.Compiler.Intern | server/src/pvm_server/compiler.py:297-302 | the pool grows by exactly the string when it is new, the result is its index, and earlier indices stay; it fails exactly when the pool is full |
| Compiler.Compiler.Segments | server/src/pvm_server/compiler.py:577-592 | accepts exactly templates of known names; the segments are the pieces of the one-pass split, and the pool grows by exactly their texts in order |
| Compiler.Compiler.States | server/src/pvm_server/compiler.py:412-430 | the initial values in order; the pool grows by exactly their strings in order |
| Compiler.Compiler.CompileInstruction | server/src/pvm_server/compiler.py:473-515 | succeeds exactly on admissible items, yields an instruction that means the item, and interns exactly its string |
| Compiler.Compiler.CloseHandler | server/src/pvm_server/compiler.py:441-443 | appends the missing halt and accepts exactly the well-typed bodies |
| Compiler.Compiler.Handlers | server/src/pvm_server/compiler.py:432-445 | compiles all handlers exactly when their names are known and their bodies well typed, interns exactly their strings in order, and records which read the event's value |
| Compiler.Compiler.Node | server/src/pvm_server/compiler.py:594-616 | compiles a tree exactly when its names are known and its IDs are new, registers these IDs, and interns exactly its texts in document order |
| Compiler.Compiler.Visit | server/src/pvm_server/compiler.py:457-462 | collects the events bound to each handler in document order |
| Compiler.Compiler.ValidateEventValueBindings | server/src/pvm_server/compiler.py:447-471 | accepts exactly descriptions in which every reader of the event's value is bound, to changes and submissions only, and is not the entry handler |
| Writers.Writer.Text | server/src/pvm_server/compiler.py:91-96 | appends the counted text, refusing more than 65535 bytes |
| Writers.Writer.TextList | server/src/pvm_server/compiler.py:406-410 | appends the printed table exactly when it and its texts fit their counts |
| Writers.Writer.WriteInstruction | server/src/pvm_server/compiler.py:618-636 | appends the printed instruction |
| Writers.Writer.WriteNode | server/src/pvm_server/compiler.py:638-655 | appends the printed tree exactly when every count fits |
| Builds.WritePayload | server/src/pvm_server/compiler.py:334-404 | appends all sections: the printed module, exactly when its tables fit |
| Builds.CheckPolicy | server/src/pvm_server/compiler.py:121-229 | decides the checked part of the policy |
| Builds.TranslatedOnce | server/src/pvm_server/compiler.py:304-404 | a description has one translation: pool, splits, indices and order are all determined |
| Builds.WrittenIff | server/src/pvm_server/compiler.py:334-404 | the translation can be written exactly when the description fits the format's counts |
| Builds.Build | server/src/pvm_server/compiler.py:304-404 | succeeds exactly on descriptions that keep the rules and fit the format, both stated on the description alone, with the bytes of their one translation |
| Builds.SmallestBuilds | server/src/pvm_server/compiler.py:304-404 | every format has a description that builds, so the results about compiled modules are not empty |
| CompiledModules.CompiledParses | client/src/runtime.cpp:527-703 | the runtime parses a compiled payload back to the compiled module exactly when the description keeps the limits only the runtime enforces, stack budget and depth included |
| CompiledModules.CompiledValid | server/src/pvm_server/compiler.py:304-404 | those limits on the description are all that separates its module from one the format can carry |
| CompiledModules.CompiledSafe | server/src/pvm_server/compiler.py:447-471 | the binding rule on the description makes every binding of the compiled module safe |
| CompiledModules.CompiledNeverMissesValue | server/src/pvm_server/compiler.py:447-471 | no run of a compiled module misses the event's value while the host supplies one with every change and submit |
| CompiledModules.CompiledText | server/src/pvm_server/compiler.py:577-592 | what a compiled property shows is its template with the state texts in place |
| Counter.CounterBuilds | server/sample/counter.pvm.json:1-196 | the sample counter, reduced to its button, builds for every format: one state, one handler, one bound event |
| Counter.CounterCompiled | server/sample/counter.pvm.json:1-196 | what it compiles to, instruction by instruction |
| Counter.CounterLoads | server/sample/counter.pvm.json:1-196 | its payload loads, in every format and under every node hash but zero |
| Counter.CounterCounts | server/sample/counter.pvm.json:35-155 | after a start and k taps, for every k up to 2^63-1, the state is k, both hosts show k, and k updates followed the first tree, whatever else a willing host does |
| DeviceStore.TraceKeeps | client/tools/provision.py:185-309 | stopping a refresh after any file step keeps what was usable or leaves the new module usable, and the recorded release has not gone down |
| DeviceStore.StoreSurvives | client/tools/provision.py:185-325 | over any run of refreshes, each stopped anywhere, a usable module stays and the release never decreases, provided manifests state one size per digest and records fit the reader's bound |
| DeviceStore.RefreshInstalls | client/tools/provision.py:290-308 | a finished refresh leaves the module usable and only the history's modules, exactly when its record fits the reader's bound |
| DeviceStore.RecordShape | client/tools/provision.py:290-304 | every written record has the current digest first, at most one older one, no repetition, and is readable exactly when its size is |
| DeviceStore.PruneLeaves | client/tools/provision.py:306-308 | pruning leaves exactly the modules of the history |
| DeviceStore.LyingSizeLosesCache | client/tools/provision.py:265-269 | a manifest that lies about the size of the module in use, and only such a one, makes the first step lose it |
| ModuleStore.Store.LastKnownGood | client/tools/provision.py:83-93 | finds a usable module exactly when record, size and hash agree |
| ModuleStore.Store.History | client/tools/provision.py:290-293 | the current digest and at most one older whose file exists |
| ModuleStore.Store.WriteRecord | client/tools/provision.py:96-103 | the record changes in one rename |
| ModuleStore.Store.ProvisionStrict | client/tools/provision.py:185-309 | the tool leaves exactly the specified disk states behind |
| ModuleStore.Store.RefreshStrict | client/platform/ios/swift/PVMModuleStore.swift:92-232 | the Swift store leaves exactly the specified disk states behind, release comparison included |
| ModuleStore.Store.Refresh | client/tools/provision.py:312-325 | a refresh that does not install falls back to the last known good module |
| ReleaseServer.PublishKeeps | server/src/pvm_server/publish.py:48-133 | at every point of a publication each control names stored modules of the stated size and hash, previous is older, and no module is lost |
| ReleaseServer.RolloutShare | server/src/pvm_server/serve.py:171-181 | of the hundred buckets exactly the stated percentage gets the current release; the unnamed join at 100 |
| ReleaseServer.RaisingKeepsCurrent | server/src/pvm_server/release.py:19-30 | raising the percentage never moves an installation back to the previous release |
| ReleaseServer.RolloutKeeps | server/src/pvm_server/release.py:19-42 | rollout changes and rollback keep every control good |
| ReleaseServer.Repository.Publish | server/src/pvm_server/publish.py:48-133 | leaves exactly the specified repository states behind and refuses exactly what is not newer |
| ReleaseServer.Repository.ChangeRollout | server/src/pvm_server/release.py:19-30 | changes the percentage, or nothing |
| ReleaseServer.Repository.RollBack | server/src/pvm_server/release.py:33-42 | sets the percentage to zero when there is a previous release |
| ReleaseServer.Repository.ServeManifest | server/src/pvm_server/serve.py:101-207 | refuses managed profiles without activation, reports an unpublished key, says unchanged exactly when the client names the tag of the selected envelope, and otherwise serves the envelope that the stable bucket selects |
| ReleaseServer.Repository.ServeModule | server/src/pvm_server/serve.py:208-249 | takes exactly file names of a digest and the suffix; what it serves has the hash in its name, and a module without a public access file is served to activated clients only |
| ReleaseServer.ManagedStaysClosed | server/src/pvm_server/serve.py:217-224 | while access files say what profiles ask for, no module with a managed profile is served without activation |
| Fleet.FleetSafe | server/src/pvm_server/publish.py:48-133 | over every interleaving, crashes included: releases under a key strictly increase, previous is the one before current, and no device loses its release or its usable module |
| Fleet.ServedIsStored | server/src/pvm_server/serve.py:155-207 | after any run a served envelope names a stored module of its size and hash and one of the two newest releases |
| Fleet.ManagedModules | server/src/pvm_server/publish.py:64-74 | after any run of publications, rollouts and refreshes, stopped anywhere, a module with a managed profile is served to activated clients only, when content fixes its profile |
| Fleet.FleetStarts | server/src/pvm_server/publish.py:48-56 | an empty repository and devices without a record satisfy the invariant of all runs |
| Fleet.RefreshSafe | client/tools/provision.py:253-255 | one refresh, stopped anywhere, never lowers the device's release |
| Fleet.RollbackLeavesDevices | client/tools/provision.py:253-255 | a device that took the newer release ignores a rolled-back manifest: its disk does not change |
| Fleet.RefreshCatchesUp | client/tools/provision.py:265-305 | a complete refresh installs what the server selected |

## Left out

- JSON text, string escaping, HTTP, TLS, files and processes: messages, manifests and records are datatypes, file operations are atomic steps.
- Ed25519, SHA-256 and the FNV node hash: uninterpreted parameters; the package envelope (magic PVMP, lengths, signature) around a payload is not modelled.
- Hosts that call back into the runtime while a call is running: a completion is a later event.
- The background decode queue of the SwiftUI host, which replaces a pending batch by a newer one: agreement is stated for hosts that apply every batch in order.
- Android and UIKit renderers, KMP and bridge wrappers, host IDL generation, build scripts, and the migration tool that scans foreign sources.
- Concurrent refreshes of one store: the release floor is read before the network wait, so each refresh runs alone.
- The audit records, the legacy manifest route without a platform, and how a request proves its activation: a request is activated or not, and the devices of the fleet are.
- Dictionary lookups of operation, type, property and event names in the description, and its JSON type errors: the description is typed, its dictionaries are listed in the compiler's sorted order.
- Numbers too wide for their field that the packing functions refuse (release, key version): typed by their width; jump targets are checked.
- Error messages: a refusal is one value, except for the interpreter's errors, which are told apart where a property needs it.
- The module that the loader fills is a value passed from section to section, not one object updated in place; aliasing plays no role there.
- Node children of the revised snapshot are rebuilt, not written through references; the flags and revisions are the same.
- Builds.CheckPolicy: lengths, positivity and uniqueness only; the patterns for identifiers, capabilities and host names, the domains and scopes that network and storage capabilities require, and the delivery flags of each profile are not modelled.
- Compiler.Compiler.CompileInstruction: a string constant is kept with its text and looked up again when it is written; the pool never moves an entry (IndexStays), so this is the interned index.
- ReleaseServer.Repository.Publish: publishing over an unsigned manifest of the old format, which the tool signs and converts first, is not modelled.
- ReleaseServer.Repository.ServeManifest: stored envelopes are well formed, so the error answers for undecodable files are not modelled.
