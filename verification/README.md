# Verified models of base/

Dafny models of eight pieces of Chromium's `base/` library, with proofs of what the library's comments,
tests and callers rely on. Source paths are relative to the repository root. Check everything with
`dafny verify dfyconfig.toml`.

## What is modelled

**File-descriptor shuffle** (`FileDescriptorShuffle`, `FileDescriptorRuns`, `FileDescriptorResults`,
`FileDescriptorShuffleInPlace`). A table of descriptors behind a delegate, and a list of arcs `source -> dest`
with close flags. The algorithm rewrites the arcs in place while it carries them out one by one, with
temporaries where an arc would overwrite what a later arc reads. The final table is described without the
algorithm (`Final`, `Shuffled`), and the run is proved to reach it for every list of arcs with distinct
destinations, cycles and shared sources included. Two things the code needs of its callers are not said in its
header. First, what `Duplicate` hands out must avoid destinations that are still to be opened, not only open
elements; `dup` does not know of them. How many temporaries a run takes is a function of the arcs (`TempCount`),
so that a caller can look at the lowest free numbers beforehand (`DupsFit`). Second, an arc that maps an element
to itself must not be followed by another arc that reads it when either asks for a close (`Clash`). Both are
shown to matter by an input, and a successful run does what was asked if and only if both hold and the buffer of
sixteen has room for the temporaries. The delegate promises only that what it hands out is not open and not in
`reserved`, which may be empty: sources that are not open must be reserved (`SourcesKnown`).

**Message loop with the default pump** (`PendingTasks`, `MessageLoops` and the modules named after it). A
transition system: any number of threads post in two steps (push under the lock, later signal), the loop thread
has a stack of nested runs, the clock is monotone, and tasks are whatever client code does. The invariants hold
over all interleavings. `MessageLoopClass` has the methods as the source writes them, on queue objects; each is
proved to take steps of that transition system.

**FilePath** (`FilePaths`, `FilePathLaws`, `FilePathClass`). The POSIX configuration: one separator, no drive
letters, and `npos + k` read as `k - 1`. `GetComponents` climbs with `DirName`; it is proved to find what a
left-to-right split of the path finds. `file_path.h` (lines 219-222) promises that `RemoveExtension` and
`Extension` rebuild every path; the code does so exactly for paths without trailing separators or whose base name
has no extension, and "foo.txt/" is lost. `GetComponents` gives nothing for "." but one component for "./"; the
laws say exactly where that matters.

**Windows command lines** (`CommandLines`, `CommandLineRoundTrip`, `CommandLinePrinting`, `CommandLineClass`).
The specification is a splitter that follows Microsoft's "Parsing C++ Command-Line Arguments": blanks outside
quotes delimit, 2n backslashes and a quote are n backslashes and a delimiter, 2n + 1 are n and a literal quote.
Printing is undone by splitting exactly when every argument satisfies `Survives`, a condition a caller can test.

**Pickle** (`Pickles`, `PickleRoundTrip`, `PickleFormat`, `PickleClass`). A byte buffer with the payload size in
its first four bytes, little-endian, with 8-byte `long` and `size_t` and 4-byte `wchar_t`. Pointers are offsets
from the buffer's start. Readers are functions of arbitrary bytes; a read is proved to accept exactly the items
whose written form stands at the iterator. The class keeps the list of written blocks as ghost state.

**ObserverList** (`ObserverLists`, `ObserverListSafety`, `ObserverListClass`). A vector with null entries, and any
number of iterators over it in any order of creation, use and destruction. It refines a plain list. For the
exactly-once results each iterator carries a history (`start`, `heard`, `removed`) that the program does not have.

**ObserverListThreadSafe** (`ObserverListThreadSafe`, `...Proofs`, `...Removal`, `...Delivery`, `...Walks`,
`...Class`). Threads with their contexts, posted notifications and nested walks; every step is what a thread
does under the lock or between two uses of it.

**Wake-up protocol and LazyInstance** (`HaveWork`, `LazyInstances`). Interleavings of any number of threads over
an exchanged flag, and over a compare-and-swap word.

`Basics` holds what several modules use. Modelling conventions: atomics and locks are sequentially consistent
steps; the operating system's answers (`dup`, `dup2`, the clock, which message is peeked) are parameters or
nondeterministic steps; allocation succeeds.

## Model

| member | source | states |
|---|---|---|
| FileDescriptorRuns.RunExact | base/file_descriptor_shuffle.cc:24-73 | a run that succeeds leaves exactly the table its arcs describe, plus what was handed out and less what was noted of that; the induction over the arcs still to be done, whose sources name the original files |
| FileDescriptorResults.RunLeavesFinalTable | base/file_descriptor_shuffle.cc:16-74 | after every successful run with distinct destinations, whatever open elements Duplicate avoids, the table is exactly the one described by the arcs alone, plus the elements handed out beyond the sixteenth and less the first sixteen; what was handed out is in the described table only where it is a destination; at most one Duplicate is made per arc, and Close is only called on open elements |
| FileDescriptorResults.FirstSixteenAreClosed | base/file_descriptor_shuffle.cc:16-20 | of the elements handed out, exactly the first sixteen are closed in the end |
| FileDescriptorRuns.HandedCount | base/file_descriptor_shuffle.cc:35-46 | as long as no temporary is a destination, a successful run makes exactly as many as the arcs alone call for: one for each arc, not to itself, whose destination a later arc reads |
| FileDescriptorResults.FinalIsShuffled | base/file_descriptor_shuffle.h:57-74 | the final table is what the caller asked for if and only if no self-mapped element is read by a later arc with a close flag on either |
| FileDescriptorResults.RunShuffles | base/file_descriptor_shuffle.cc:16-74 | a successful run shuffles the descriptors as asked (every destination holds its source's original file, flagged sources are closed unless mapped to, the rest is as it was) if and only if there is no clash, none of the elements Duplicate will hand out is a destination, and at most sixteen are called for; only when the first destination among them comes after the sixteenth is this left to the next row |
| FileDescriptorResults.RunShufflesByHanded | base/file_descriptor_shuffle.cc:37-46 | the same by what was handed out, beyond sixteen too: as asked if and only if there is no clash and the destinations among the elements handed out are exactly those the buffer had no room for |
| FileDescriptorResults.WillingRunSucceeds | base/file_descriptor_shuffle.cc:36-68 | if all sources are open and the delegate has a fresh element and a successful move for every arc, the run succeeds |
| FileDescriptorRuns.TempsDiffer | base/file_descriptor_shuffle.cc:37-46 | no temporary is handed out twice in a run, nor one that was alive before |
| FileDescriptorShuffle.StepKeepsMeaning | base/file_descriptor_shuffle.cc:33-68 | carrying out one arc and rewriting the later ones does not change the final table that the remaining arcs describe |
| FileDescriptorShuffle.RewireLast | base/file_descriptor_shuffle.cc:52-58 | the close flag survives the inner loop only on the last arc that has to do with the source |
| FileDescriptorShuffle.RewireHandsOn | base/file_descriptor_shuffle.cc:55-58 | if no later arc writes the source, a close flag is handed on to a later reader and not lost |
| FileDescriptorResults.FreshElementIsNeeded | base/file_descriptor_shuffle.h:36-38 | with 0 to 4 open, a delegate that hands out the lowest free number makes arcs (0,1),(1,5) end with 5 closed, although every call succeeds and there is no clash |
| FileDescriptorResults.ClashLosesADestination | base/file_descriptor_shuffle.cc:55-67 | arcs (3,3),(3,4,close) do not end as asked, although every call succeeds |
| FileDescriptorShuffleInPlace.InjectionDelegate.Duplicate | base/file_descriptor_shuffle.h:36-38 | a fresh element gets the same file, or the call fails and the table stays |
| FileDescriptorShuffleInPlace.InjectionDelegate.Move | base/file_descriptor_shuffle.h:39-41 | the destination is overwritten with the source's file, or the call fails and the table stays |
| FileDescriptorShuffleInPlace.InjectionDelegate.Close | base/file_descriptor_shuffle.h:42-43 | the element is gone; closing one that is not open is counted as a fault |
| FileDescriptorShuffleInPlace.RewireInPlace | base/file_descriptor_shuffle.cc:35-59 | the inner loop on the array rewrites the later arcs as the functional form does, and duplicates at most once |
| FileDescriptorShuffleInPlace.PerformInjectiveMultimapDestructive | base/file_descriptor_shuffle.cc:16-74 | the in-place loops return and leave behind what the run as a function does |
| FileDescriptorShuffleInPlace.PerformInjectiveMultimap | base/file_descriptor_shuffle.cc:76-80 | on success the descriptors are shuffled as asked if and only if there is no clash, no element to be handed out is a destination and at most sixteen are called for; and with open sources and a willing delegate it succeeds |
| PendingTasks.LessIsRunsAfter | base/pending_task.cc:34-48 | while sequence numbers are less than 2^31 apart, the comparison is "later run time, or same and posted later" |
| PendingTasks.LessFailsAtTheBound | base/pending_task.cc:45-47 | at a distance of 2^31 neither of two simultaneous tasks comes first |
| PendingTasks.LessAgreesExactlyWhen | base/pending_task.cc:45-47 | for simultaneous tasks the comparison gives the posting order if and only if their distance modulo 2^32 is below 2^31 |
| PendingTasks.LessIsStrictTotalOrder | base/pending_task.cc:34-48 | on tasks within a span of 2^31 it is irreflexive, asymmetric, transitive and total |
| PendingTasks.TaskQueue.Swap | base/pending_task.cc:50-52 | the two queues exchange their contents |
| MessageLoopSafety.StepKeepsSafe | base/message_loop.cc:592-709 | every step of every thread keeps the wake-up, deadline, never-early and reentrancy invariants together |
| MessageLoopTheorems.SleepIsSafe | base/message_loop.cc:592-668 | no lost wake-up: at the wait with tasks allowed the work queue is empty, and a non-empty incoming queue has its signal set or on its way |
| MessageLoopScheduling.OneSignalForEachBatch | base/message_loop.cc:592-615 | over any run, posts signal the pump exactly once for each batch it takes over and for what waits now |
| MessageLoopScheduling.AllowingSignals | base/message_loop.cc:336-344 | the event is set by the signals of posts and by raising the flag, and by nothing else |
| MessageLoopTheorems.SleepEndsInTime | base/message_pump_default.cc:46-57 | at the wait with tasks allowed, the pump's deadline is the earliest one in the delayed queue, and once that time has come the loop can move, whatever other threads do |
| MessageLoopTheorems.SleepLeavesNothingToDo | base/message_loop.cc:701-709 | no run waits once quit_received is set, and the outermost one does not wait while there is a deferred task |
| MessageLoopTheorems.RunAllPendingNeverBlocks | base/message_loop.cc:303-307 | a run that RunAllPending started is never at the wait for as long as it goes on, whatever its tasks, nested runs and other threads do |
| MessageLoopTheorems.RunGoesOnUntilAsked | base/message_loop.cc:298-322 | a run of Run goes on, whatever its tasks, nested runs and other threads do, until a task of its own, not of a nested run, calls Quit or QuitNow |
| MessageLoopTheorems.QuitEndsRun | base/message_loop.cc:701-709 | from any reachable state, a run that is to quit comes to its end, with the pump ready for the next, if its tasks return |
| MessageLoopTheorems.EveryTaskGetsItsTurn | base/message_loop.cc:639-709 | from any reachable state, the outermost run that is not asked to end starts every task posted so far, immediate, delayed or deferred, if tasks return, signals arrive and time passes |
| MessageLoopTheorems.PumpSettles | base/message_pump_default.cc:20-63 | from anywhere in the pump, in nested runs too, its own moves lead to the start of a task, to the end of the run, or to a wait that is neither signalled nor due |
| MessageLoopWaits.LoopWaits | base/message_pump_default.cc:46-53 | there are runs that wait without a limit, and runs that wait for the time of a delayed task |
| MessageLoopTheorems.NothingStartsEarly | base/message_loop.cc:670-699 | no delayed task is started, or popped, before its run time, though the clock is read only now and then |
| MessageLoopTheorems.ReentrancyDiscipline | base/message_loop.cc:420-480 | over all nested runs a non-nestable task starts only at depth 1, none starts while tasks are not allowed, also on the idle path, and the started tasks that had been put off are, in the order of their start, the first that were put off |
| MessageLoopReentrancy.StartsAreDisciplined | base/message_loop.cc:434-480 | every move of the pump that starts a task does so with the flag up, and with a nestable task or in the outermost run |
| MessageLoopReentrancy.TasksAreNotReentrant | base/message_loop.cc:434-466 | from the start of a task to its return nothing else is started, in whatever runs are nested in it, unless nested tasks have been allowed there |
| MessageLoopReentrancy.NestedTasksRunWhenAllowed | base/message_loop.cc:336-344 | after SetNestableTasksAllowed(true) in a task, a run nested in it does start a task, if an immediate nestable one is queued |
| MessageLoopReentrancy.QuitNowEndsRun | base/message_pump_default.cc:27-30 | QuitNow ends the run as soon as its task has returned, and nothing else is started in it |
| MessageLoopTheorems.PromptTasksStartInOrder | base/message_loop.cc:468-508 | immediate nestable tasks that were started, then those in hand, in the work queue and incoming, are exactly those posted, in that order |
| MessageLoopTheorems.TasksAreConserved | base/message_loop.cc:468-508 | every posted task is in exactly one of the queues, in hand or started, and nothing else is |
| MessageLoopTheorems.DelayedTasksStartInOrder | base/message_loop.cc:482-490 | of two delayed tasks, one that was posted first, is nestable and is due no later has started before the other does |
| MessageLoopTheorems.FewDelayedTasksStartInOrder | base/message_loop.cc:482-490 | the same with no supposition about sequence numbers, in every run in which at most 2^31 tasks have been posted |
| MessageLoopHistory.MoveKeepsHistory | base/message_loop.cc:482-508 | moving a task from place to place keeps conservation and both orders |
| MessageLoopHistory.StepMoves | base/message_loop.cc:592-709 | every step of the loop moves at most one batch of tasks in one of the allowed ways |
| MessageLoopDeferral.MoveKeepsDeferralOrder | base/message_loop.cc:420-480 | every move of a task keeps the started among the put-off tasks in the order of their deferral, followed by those still deferred |
| MessageLoopDelayed.PopKeepsOrdered | base/message_loop.cc:692-698 | popping the top of the heap takes out nothing before what was posted earlier and is due no later |
| MessageLoopDelayed.StepKeepsOrdered | base/message_loop.cc:482-490 | every step keeps the order in which delayed tasks leave the queue and start |
| MessageLoopScheduling.AddKeepsDeadline | base/message_loop.cc:482-490 | the pump keeps knowing the earliest deadline when a delayed task is added, exactly unless an earlier top has an equal closure |
| MessageLoopScheduling.PopKeepsDeadline | base/message_loop.cc:692-698 | after a pop the pump knows the earliest time that is left, and hears of nothing if none is |
| MessageLoopScheduling.ClockIsReadSeldom | base/message_loop.cc:670-699 | while tasks are left that were due at the last reading of the clock, what is done does not depend on the clock; else it is read and decides |
| MessageLoopScheduling.PutOffIsNoWork | base/message_loop.cc:692-699 | a due task that is put off in a nested run does not count as work done |
| MessageLoopQuit.StepKeepsGoing | base/message_pump_default.cc:20-63 | no step but a Quit or QuitNow of the run itself brings it onto its way out |
| MessageLoopProgress.PumpMovesOn | base/message_loop.cc:639-709 | every move of the pump starts a task, ends the run, or brings tasks or the pump itself measurably closer to that or to the wait |
| MessageLoopClass.HeapTop | base/pending_task.cc:34-48 | a maximum under the comparison on 32-bit numbers has the least run time, and is a maximum of the meant order while the numbers are close |
| MessageLoopClass.MessageLoop.AddToIncomingQueue | base/message_loop.cc:592-615 | the locked push, and that the caller is to signal exactly if the queue was empty |
| MessageLoopClass.MessageLoop.SetNestableTasksAllowed | base/message_loop.cc:336-344 | sets the flag, and signals the pump only when it goes up |
| MessageLoopClass.MessageLoop.ReloadWorkQueue | base/message_loop.cc:492-508 | an empty work queue takes over the whole incoming queue; otherwise nothing changes |
| MessageLoopClass.MessageLoop.AddToDelayedWorkQueue | base/message_loop.cc:482-490 | the entry is numbered with the next 32-bit number, and the pump's deadline changes if the new top has an equal closure |
| MessageLoopClass.MessageLoop.DeferOrRunPendingTask | base/message_loop.cc:468-480 | a nestable task, or any at depth 1, is started with the flag cleared; else it goes to the end of the deferred queue |
| MessageLoopClass.MessageLoop.DoWork | base/message_loop.cc:639-668 | takes only steps of the transition system, and ends in a task or with nothing left to do, other threads' turns included |
| MessageLoopClass.MessageLoop.DoDelayedWork | base/message_loop.cc:670-699 | takes only steps of the transition system, and ends in a task or after delayed work |
| MessageLoopClass.MessageLoop.DoIdleWork | base/message_loop.cc:701-709 | starts the oldest deferred task at depth 1, else makes the pump quit if a quit was asked for |
| MessageLoopClass.MessageLoop.KeepRunning | base/message_pump_default.cc:29-30 | goes on, or leaves the run with the flag set again and one AutoRunState less |
| MessageLoopClass.MessageLoop.RunRound | base/message_pump_default.cc:20-63 | one round of the pump's loop takes only steps of the transition system, and ends in a task, out of the run, at the top again or blocked |
| MessageLoopClass.MessageLoop.RunAfterIdleWork | base/message_pump_default.cc:39-57 | blocks without a limit, or until the deadline if that is still to come, or goes round again |
| FilePaths.StripIsIdempotent | base/file_path.cc:1191-1211 | stripping twice strips no more than stripping once |
| FilePaths.StrippedForms | base/file_path.cc:1191-1211 | a path is stripped if and only if it is empty, "/", "//" or does not end in a separator |
| FilePaths.DirNameIsLower | base/file_path.cc:295-329 | DirName leaves a path alone, shortens it or yields ".", so that climbing ends on every path |
| FilePaths.ClimbIsDirect | base/file_path.cc:208-241 | on a stripped path, climbing with DirName finds the components that splitting from the left finds |
| FilePaths.ComponentsAreDirect | base/file_path.cc:208-241 | for every path the components are the root marker and the non-empty segments, less one leading "."; only "." with trailing separators yields ["."] |
| FilePaths.LeadingSeparatorsMakeTheRoot | base/file_path.cc:295-329 | before a component, two or three leading separators make the root "//", any other number "/" |
| FilePathLaws.AppendThenSplit | base/file_path.cc:295-352 | a name appended to any path is the base name of the result, and the stripped path is its directory |
| FilePathLaws.AppendNothing | base/file_path.cc:445-477 | an empty component appended strips the path and adds no separator |
| FilePathLaws.NoComponents | base/file_path.cc:208-241 | only the empty path and "." have no components |
| FilePathLaws.ComponentsOfAppendAll | base/file_path.cc:445-477 | appending names one by one appends them to the components if and only if the path is no "./" and no leading "." is lost |
| FilePathLaws.ComponentsAreNames | base/file_path.cc:208-241 | all components are names, but for a root in the first place |
| FilePathLaws.RelativePathIsAppended | base/file_path.cc:247-289 | on success the child's components are the parent's and a non-empty rest, and the output's are what it had and that rest, exactly under the condition on the output path |
| FilePathLaws.RelativePathRebuildsChild | base/file_path.cc:247-289 | with the parent itself as output the result has the child's components, if and only if the parent is no "./" |
| FilePathLaws.AppendedIsChild | base/file_path.cc:243-245 | appending a name makes a child, if and only if the path has components and is no "./" |
| FilePathLaws.ParentsAreMetClimbing | base/file_path.cc:243-289 | a path with fewer components, but some, is a parent if and only if its components are those of a directory that DirName meets on the way up from the child |
| FilePathLaws.ExtensionIsInName | base/file_path.cc:121-160 | where the extension starts does not depend on the directory in front, dots in it and double extensions included |
| FilePathLaws.ExtensionWithTwoDots | base/file_path.cc:115-160 | if the base name ends in ".mid.last", the extension is all of that if last is gz, z or bz2 in any case and mid has one to four characters, and else ".last" |
| FilePathLaws.ExtensionWithOneDot | base/file_path.cc:115-160 | if the base name has one dot and is not ".", the extension is that dot and the rest |
| FilePathLaws.ExtensionIsEmpty | base/file_path.cc:354-361 | there is no extension if and only if the base name has no dot or is "." or ".." |
| FilePathLaws.ExtensionsRebuild | base/file_path.h:219-222 | RemoveExtension and Extension together rebuild a path if and only if it has no trailing separators, or its base name is "." or ".." or has no dot |
| FilePathLaws.TrailingSeparatorIsLost | base/file_path.h:219-222 | "foo.txt/" is not rebuilt |
| FilePathClass.FilePath.StripTrailingSeparatorsInternal | base/file_path.cc:1191-1211 | the loop leaves the path without trailing separators, except that "/" and "//" stay, and more separators than two become one |
| FilePathClass.FilePath.DirName | base/file_path.cc:295-329 | the edits of the copy give the directory, and this path stays |
| FilePathClass.FilePath.BaseName | base/file_path.cc:331-352 | the edits of the copy give the last component, and this path stays |
| FilePathClass.FilePath.Append | base/file_path.cc:445-477 | the component after the stripped path, with a separator in between where there is none, and alone after "." |
| FilePathClass.FilePath.GetComponents | base/file_path.cc:208-241 | the loop, which ends, returns the components from the first to the last |
| FilePathClass.FilePath.AppendRelativePath | base/file_path.cc:247-289 | succeeds if and only if this path has components and they are a proper prefix of the child's, and appends the rest to the output, even if that is this path or the child |
| FilePathClass.FilePath.IsParent | base/file_path.cc:243-245 | the same test without an output |
| CommandLineRoundTrip.EscapeReads | base/command_line.cc:106-133 | escaped text up to its closing quote is read back literally, whatever backslashes and quotes it has, and flips whether a quote is open |
| CommandLineRoundTrip.QuoteReads | base/command_line.cc:98-138 | a quoted text is read as itself; one that needs no quotes is read character by character |
| CommandLineRoundTrip.ArgumentsRead | base/command_line.cc:223-253 | if no switch name has a quote, the printed line is split into the pieces of each argument, in order |
| CommandLineRoundTrip.QuotedNamesAreLost | base/command_line.cc:233-243 | with a quote in any switch name the line is never split into the arguments again |
| CommandLineRoundTrip.SplitUndoesPrinting | base/command_line.cc:223-253 | the text after the program is split into the arguments again if and only if each of them survives: not empty, no tab unless quoted, and for switches a name without blank or quote and no empty value |
| CommandLineRoundTrip.SplitUndoesQuoting | base/command_line.cc:98-138 | quoted forms joined by spaces are split into the arguments again if and only if none is empty and none has a tab without having anything to be quoted for |
| CommandLineRoundTrip.EmptyArgumentIsLost | base/command_line.cc:101-104 | an empty argument is printed as nothing |
| CommandLineRoundTrip.TabIsLost | base/command_line.cc:101-104 | a tab alone does not cause quoting |
| CommandLineRoundTrip.EmptyValueIsLost | base/command_line.cc:236-243 | a switch with "=" and nothing after it comes back without the "=" |
| CommandLinePrinting.QuotedExactlyWhen | base/command_line.cc:100-104 | a text is quoted if and only if it has a space, a backslash or a quote |
| CommandLinePrinting.DoubleDashEndsSwitches | base/command_line.cc:228-249 | behind "--" every argument is printed as a text, whatever it starts with |
| CommandLinePrinting.SwitchesStartWith | base/command_line.cc:29-35 | an argument has the form of a switch if and only if it starts with a dash or a slash |
| CommandLineClass.QuoteForCommandLineToArgvW | base/command_line.cc:98-138 | the index loops build the quoted form |
| CommandLineClass.GetSwitchPrefixLength | base/command_line.cc:37-44 | 2 for "--", 1 for another dash or a slash, 0 for all else: the first prefix in the table that fits |
| CommandLineClass.IsSwitch | base/command_line.cc:48-61 | whether some prefix fits, and the parts before and after the first "=" |
| CommandLineClass.CommandLine.GetCommandLineString | base/command_line.cc:223-253 | what follows the program is split into the arguments again if and only if all of them survive |
| PickleRoundTrip.EncodeDecode | base/pickle.cc:172-184 | any bytes are the encoding of the number they decode to |
| PickleRoundTrip.ReadAccepts | base/pickle.cc:108-292 | in any buffer a read of any kind but bool accepts an item if and only if its written form stands in the payload at the iterator, and moves to its aligned end |
| PickleRoundTrip.ReadBoolAccepts | base/pickle.cc:97-106 | a bool is read from any int that is there, not only from 0 and 1, and every bool that was written is read |
| PickleRoundTrip.String16Read | base/pickle.cc:249-263 | an accepted string16 has all its units in the payload, although the size is not checked for overflow |
| PickleRoundTrip.WideLengthWraps | base/pickle.cc:236-240 | without its check ReadWString would take a length of 2^30 for a size of 0 |
| PickleRoundTrip.ReadsStayInPayload | base/pickle.h:168-174 | for an arbitrary buffer, bytes are handed out if and only if they lie in the payload, and are those bytes |
| PickleRoundTrip.LaidAndAppended | base/pickle.cc:377-392 | a block written at the next aligned offset leaves the earlier blocks where they were |
| PickleRoundTrip.WrittenIsReadBack | base/pickle.cc:97-338 | what a payload holds is read back by the same sequence of reads, and then every read of positive width fails |
| PickleRoundTrip.RebuiltIsTheSame | base/pickle.cc:40-57 | a Pickle made from data() and size() finds the same header size and payload |
| PickleRoundTrip.RebuiltReadsBack | base/pickle.cc:40-57 | and gives back the same items |
| PickleRoundTrip.FromDataAccepts | base/pickle.cc:40-57 | a buffer is used if and only if its payload size leaves an aligned, non-empty header, and then it is header and payload exactly |
| PickleRoundTrip.FindNextFindsTheEnd | base/pickle.cc:415-431 | a range that starts with a pickle yields its end if and only if all of it is in the range |
| PickleFormat.NumbersAre | base/pickle.h:95-118 | the range of each number type |
| PickleFormat.NumberIsWritten | base/pickle.h:95-118 | a number is written in two, four or eight bytes by its type, lowest byte first, in two's complement |
| PickleFormat.BoolIsWritten | base/pickle.h:95-97 | a bool is written as the int 1 or 0 |
| PickleFormat.TextIsWritten | base/pickle.cc:300-321 | the length in four bytes, then two bytes for each unit of a string16 and four for each of a wstring |
| PickleFormat.AlignmentIsFour | base/pickle.cc:377-392 | blocks start at the next multiple of four |
| PickleFormat.CapacityUnitIs64 | base/pickle.cc:401-412 | capacities are multiples of 64 |
| PickleFormat.FailedReadStays | base/pickle.cc:278-292 | a read that fails leaves the iterator where it is, or at the start of the payload if it was null |
| PickleClass.Pickle.WithHeader | base/pickle.cc:29-38 | a writable empty Pickle whose header size is rounded up to a multiple of four |
| PickleClass.Pickle.FromBuffer | base/pickle.cc:40-57 | references the buffer, or nothing at all if its sizes do not fit together |
| PickleClass.Pickle.Copy | base/pickle.cc:59-68 | a writable copy with the same bytes up to the end of the payload |
| PickleClass.Pickle.Resize | base/pickle.cc:401-412 | the capacity is rounded up to a multiple of 64 and the contents are kept |
| PickleClass.Pickle.BeginWrite | base/pickle.cc:377-392 | the payload grows by the block at the next aligned offset, nothing else changes, there is room for padding after it, and a buffer that has to grow at least doubles |
| PickleClass.Pickle.EndWrite | base/pickle.cc:394-399 | zeroes exactly the bytes up to the next aligned offset |
| PickleClass.Pickle.RoomForPadding | base/pickle.cc:377-399 | a capacity in units of 64 that has room for a block has room for its padding |
| PickleClass.Pickle.WriteBytes | base/pickle.cc:327-338 | one block more is held, and all that was held before still is |
| PickleClass.Pickle.WriteNumber | base/pickle.h:95-118 | the number's bytes are one block more |
| PickleClass.Pickle.WriteString16 | base/pickle.cc:315-321 | the length and the units are two blocks more |
| PickleClass.Pickle.WriteData | base/pickle.cc:323-325 | a negative length is refused and changes nothing; else length and bytes are two blocks more |
| PickleClass.Pickle.BeginWriteData | base/pickle.cc:340-358 | a negative length is refused; else the length and that many bytes are held, which start right after the length |
| PickleClass.Pickle.TrimWriteData | base/pickle.cc:360-375 | the recorded length becomes the shorter one and the payload shrinks by the difference, all other bytes before its end as they were, whatever was written since; if the variable buffer is the last thing written it keeps its first bytes; a length that is negative or too great changes nothing |
| PickleClass.Pickle.WriteAll | base/pickle.h:89-146 | any sequence of Write calls leaves exactly the blocks of its items, in their order and behind what was there |
| PickleClass.Pickle.WriteInPlace | base/pickle.cc:340-375 | BeginWriteData with too much room, a copy through the pointer it returns, and TrimWriteData together leave the blocks that WriteData of the bytes would have left |
| PickleClass.Pickle.ReadBytes | base/pickle.cc:278-292 | the bytes at the iterator if they lie before the end of the payload; the iterator moves past the padding, or at least away from null |
| PickleClass.Pickle.ReadWString | base/pickle.cc:230-247 | reads what the format says is there, or fails with the iterator after what it has consumed |
| PickleClass.Pickle.ReadString16 | base/pickle.cc:249-263 | the same, with the size passed as an int unchecked |
| PickleClass.PickleReadsBack | base/pickle.cc:40-57 | items that the blocks of a Pickle spell are read back from the object and from one made of its data() and size(), with the same header size, and further reads of positive width fail |
| PickleClass.RoundTrip | base/pickle.h:89-146 | whatever sequence of items is written into a new Pickle, the same reads of it, and of a Pickle made from its data() and size(), give these items and then fail |
| PickleClass.RoundTripInPlace | base/pickle.cc:340-375 | the same when data is written in place and trimmed between other items |
| ObserverListSafety.StepIsPlain | base/observer_list.h:120-168 | every operation changes the non-null entries as it changes a plain list |
| ObserverListSafety.StepKeepsFair | base/observer_list.h:83-168 | every operation, by whomever, keeps what an iterator has returned and still will equal to what it owes |
| ObserverListSafety.NextIsFirst | base/observer_list.h:97-106 | GetNext returns the first pending observer and leaves the others pending, and nothing if and only if none is |
| ObserverListSafety.UnwalkedListIsPlain | base/observer_list.h:92-95 | whenever no iterator exists, the vector is the surviving observers without nulls in the order they were added |
| ObserverListSafety.OnlyListedAreNotified | base/observer_list.h:97-106 | only an observer that is on the list is ever returned: none after its removal unless added again |
| ObserverListSafety.RunIsRecorded | base/observer_list.h:83-168 | what is recorded of an iterator is the list at its construction, the observers its GetNext returned, and those that RemoveObserver and Clear have taken off the plain list since |
| ObserverListSafety.EachIsNotifiedOnce | base/observer_list.h:65-106 | an iterator that finds no more has returned each observer that was on the plain list at its construction and was not taken off since exactly once, with NOTIFY_ALL also those added since, with NOTIFY_EXISTING_ONLY no others and none twice |
| ObserverListSafety.NotifiedInOrder | base/observer_list.h:97-106 | and, those taken off apart, it has returned in order the plain list as it was at its construction, or with NOTIFY_ALL as it is now |
| ObserverListClass.ObserverListBase.AddObserver | base/observer_list.h:120-127 | an observer already on the list is not added again |
| ObserverListClass.ObserverListBase.RemoveObserver | base/observer_list.h:130-140 | its entry becomes null while iterators exist, else it is erased |
| ObserverListClass.ObserverListBase.HasObserver | base/observer_list.h:142-148 | whether the observer is among the non-null entries |
| ObserverListClass.ObserverListBase.Clear | base/observer_list.h:150-159 | all entries become null while iterators exist, else there are none |
| ObserverListClass.ObserverListBase.Compact | base/observer_list.h:164-168 | the moves of std::remove leave the non-null entries in their order |
| ObserverListClass.Iterator.GetNext | base/observer_list.h:97-106 | the loop returns the next non-null entry below the limit |
| ObserverListClass.Iterator.Destroy | base/observer_list.h:92-95 | the last iterator to go compacts the list |
| ObserverListThreadSafeProofs.StepKeepsInv | base/observer_list_threadsafe.h:108-157 | every step of a thread keeps the account of every context: not made, alive in one of the listed ways, or deleted once |
| ObserverListThreadSafeProofs.EndWalkKeepsInv | base/observer_list_threadsafe.h:259-277 | when a notification ends, a context off the map is empty and about to be deleted, also after nested notifications |
| ObserverListThreadSafeProofs.NoDeletedContextIsUsed | base/observer_list_threadsafe.h:108-277 | in every reachable state every possible step uses only a context that has not been deleted |
| ObserverListThreadSafeProofs.ContextsAreFreedOnce | base/observer_list_threadsafe.h:130-157 | no context is deleted twice, and one that was made is there until deleted |
| ObserverListThreadSafeProofs.MappedContextHasObserver | base/observer_list_threadsafe.h:130-157 | between top-level operations a mapped context has an observer, and no other context of the thread is left |
| ObserverListThreadSafeProofs.DestructorFreesTheRest | base/observer_list_threadsafe.h:215-220 | once nothing refers to the list, its destructor leaves every context ever made deleted exactly once |
| ObserverListThreadSafeRemoval.OnlyListedAreNotified | base/observer_list_threadsafe.h:254-257 | in every reachable state the iterator of any walk, nested ones too, returns only observers on the list of its context |
| ObserverListThreadSafeRemoval.RemovedIsNotNotified | base/observer_list_threadsafe.h:126-157 | after RemoveObserver on its thread, and until it is added there again, an observer is returned by no walk of the thread: notifications on their way to it are aborted |
| ObserverListThreadSafeDelivery.NotifyPostsToEachContext | base/observer_list_threadsafe.h:223-233 | Notify gives every thread with a context in the map one call for it, at the end of its queue, and changes nothing else of any thread |
| ObserverListThreadSafeDelivery.ListIsPlain | base/observer_list_threadsafe.h:108-157 | the list of a thread is what it has added and not removed, in the order of adding, over all contexts that come and go |
| ObserverListThreadSafeDelivery.CallDelivers | base/observer_list_threadsafe.h:235-257 | a call that is run while its context is mapped, with nothing in between, returns all observers of the list in order and then ends |
| ObserverListThreadSafeDelivery.StaleCallIsDropped | base/observer_list_threadsafe.h:239-252 | a call whose context is not the mapped one any more notifies nobody |
| ObserverListThreadSafeDelivery.NotifyReachesAll | base/observer_list_threadsafe.h:223-257 | Notify and the call it posts notify exactly the observers that the thread has added and not removed, each once, in that order |
| ObserverListThreadSafeWalks.WalkNotifiesInOrder | base/observer_list_threadsafe.h:235-257 | with callbacks that add, remove and notify in between, a call has notified, those taken off apart, whom it owed that and in order: with NOTIFY_ALL whoever is on the list at its end, else whoever was at its start, and nobody twice |
| ObserverListThreadSafeClass.ThreadContexts.AddObserver | base/observer_list_threadsafe.h:108-124 | takes the steps of finding or making the context and of adding to it |
| ObserverListThreadSafeClass.ThreadContexts.RemoveObserver | base/observer_list_threadsafe.h:130-157 | takes the steps of unmapping, removing and deleting, the last exactly if the list is empty |
| ObserverListThreadSafeClass.ThreadContexts.ContinueNotifyWrapper | base/observer_list_threadsafe.h:254-277 | one round of the loop, or the end of the walk with the deletion of an empty context |
| HaveWork.AtMostOneWorkMessage | base/message_pump_win.cc:94-100 | in every interleaving the messages queued, being posted, or retrieved with the flag not yet reset are as many as have_work_ says: none or one |
| HaveWork.ChecksHold | base/message_pump_win.cc:365-405 | no kMsgHaveWork is ever peeked as a replacement, and the flag is always found set when it is reset |
| HaveWork.WakeUpIsOnTheWay | base/message_pump_win.cc:94-100 | after any exchange in ScheduleWork a message is queued, being posted or being handled |
| HaveWork.OtherMessagesAreKept | base/message_pump_win.cc:365-405 | no other message is lost or dispatched twice, also when it is peeked in the place of a kMsgHaveWork |
| LazyInstances.StepKeepsInv | base/lazy_instance.h:136-170 | every step of every thread keeps at most one creator, and the word telling how far it is |
| LazyInstances.ConstructedOnce | base/lazy_instance.cc:18-56 | New is called at most once, at most one thread is between the swap and the store, and every returning call gives the one instance fully constructed |
| LazyInstances.ConstructedOnceExactlyIf | base/lazy_instance.h:144-160 | New is called at most once for every number of threads and every schedule if and only if the address it returns is not 0 |
| LazyInstances.CallsReturnExactlyIf | base/lazy_instance.cc:18-56 | for a non-null address, every call can come to its end with the instance from wherever it is, in every schedule, if and only if the address is not the marker 1 |
| LazyInstances.CreatedIsFast | base/lazy_instance.h:136-160 | a call after the creation takes no more than its own two turns |
| LazyInstances.NullAddressConstructsAgain | base/lazy_instance.h:144-160 | if New returned address 0 the next caller would construct again |
| LazyInstances.MarkerAddressHangs | base/lazy_instance.cc:18-38 | if New returned address 1, the marker, a thread that waits for the instance would wait for good |

## Left out

- File-descriptor shuffle: HANDLE_EINTR and the errors of dup, dup2 and close beyond success or failure; arcs with equal destinations, which the source only checks in debug builds.
- Message loop: destruction of the loop and of its pending tasks, observers, histograms, tracing, high-resolution timers, the UI and I/O loop types, and dispatchers.
- Message loop: std::priority_queue is represented by what its top can be, which is a maximum under the comparison where that is an order and has the least run time always; the shape of the heap is not modelled.
- Message loop: the class methods stop where client code is called and are resumed after it; that a run comes to a task or its end is stated of what is posted at the time, not of other threads that post forever.
- MessageLoopTheorems.DelayedTasksStartInOrder: supposes that live sequence numbers span less than 2^31, without which the comparison is not an order; FewDelayedTasksStartInOrder needs only that at most 2^31 tasks were posted.
- FileDescriptorResults.RunShufflesByHanded: leaves open whether a run as asked can come about by chance when a clash has closed an element and Duplicate hands that very element out again after the sixteenth, so that it stays open with some file.
- FilePath: drive letters, backslashes, case-insensitive comparison, HFS tables, string encodings, and the operations that insert or replace extensions.
- Command line: what CommandLineToArgvW does beyond the documented rules, such as for two adjacent quotes inside quotes, which are printed only where the name of a switch, which is printed as it is, has a quote; the program, which follows a different splitting rule; the switch map and parsing into it.
- Pickle: lengths beyond the range of int, payloads whose size a uint32 cannot count, allocation failure, operator=, address wrap-around in pointer comparisons, and iterators before the header.
- PickleClass.Pickle.TrimWriteData: after a trim that follows later writes, the payload cuts those short, and the list of written blocks is only known as one block of the bytes that remain.
- PickleClass.Pickle.FillWriteData: stands for what a caller does through the pointer from BeginWriteData; only an overwrite from its start is modelled.
- ObserverList: a list that is destroyed while iterators over it exist, which they notice through a weak pointer.
- ObserverListThreadSafe: threads without a message loop, whose AddObserver does nothing; reuse of a freed context's address by a new one.
- Wake-up protocol: a failing PostMessage, and all other duties of the Windows pumps.
- LazyInstance: the exit callback, and memory ordering weaker than sequential consistency.
- Callback and Bind templates, at-exit handling, path service, file utilities and platform wrappers: template machinery, or calls into the operating system.
