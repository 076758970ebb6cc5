# A verified model of DetTrace's core

DetTrace runs a tree of processes deterministically: it lets one tracee run at a time, in an order
that depends only on pids, and rewrites what each of them sees of the host. This project models the
parts of that machinery that keep state over a whole run, and proves what they promise for every
input, every run and every interleaving. ptrace, the kernel and `/proc` appear as an environment
that supplies events, results and register contents; where the tracer reports an internal error
the model returns an explicit `Error`, so that failing runs are part of every statement.

Where the source updates an object in place, the model has a class or a loop that does the same and
is proved equal to a function on values; the theorems are about those functions.

| file | models |
|---|---|
| `Outcomes.dfy` | the internal errors a run can end in |
| `Scheduling.dfy` | the two-heap scheduler |
| `Execution.dfy` | fork, clone, exec, exit and exit_group in the event loop |
| `ExecutionInvariants.dfy` | what each turn keeps, when a turn fails, how a run ends |
| `ExecutionProperties.dfy` | which runs fail, and descriptor tables |
| `TurnEffects.dfy` | what a turn does to each tracee, and the exit_group flag over runs |
| `Bypass.dfy` | fairness: how often others are preempted before a tracee's next turn |
| `ExitOrder.dfy` | the hash order of a thread group never shows |
| `Replay.dfy`, `ReplayTracer.dfy` | the argument cache, replays and the skip-and-re-execute stages |
| `GuestRegisters.dfy` | what a guest finds in its registers after a call |
| `ShortTransfer.dfy` | completing short reads and writes |
| `BoundedPoll.dfy` | poll with a timeout |
| `HostFiles.dfy` | virtual inode numbers and modification times on two hosts |
| `FileTimes.dfy` | which time a file shows, and the clocks it comes from |
| `DirectoryListing.dfy` | sorted and virtualised directory listings |
| `ListingReplies.dfy` | what each reply of getdents holds |
| `LogicalClock.dfy` | the logical clock's conversions |
| `CodePatching.dfy` | replacing vDSO functions and injecting the stub at exec |
| `PathNormaliser.dfy` | the lexical path normaliser and the topology test |

`dafny verify dfyconfig.toml` checks all of it.

## Results that are not what the source's comments suggest

- A process that has exited and waits for a child cannot itself be the last child of such a process:
  `removeAndScheduleParent` looks for it in the heaps only. Starting a daemon by a double fork
  therefore ends the run (`OrphanedGrandchildFails`). A thread that calls exit_group after its leader
  has exited ends the run too (`ExitGroupAfterLeaderFails`). `RunFailsIff` says exactly which runs fail.
- The comment at `include/state.hpp:163-192` says that inodes are deleted from the maps when a file is
  removed. The code does not do so; it overwrites the entry when a new file is registered. The model
  follows the code, and `HostIsInvisible` shows that this suffices for every file whose creation is hooked.
- Files made in the run look newer than older files exactly if the epoch is not within the first
  second of Unix time (`OldFilesLookOlderIff`), since times are truncated toward zero.
- A forked or cloned child starts with `firstTrySystemcall` false and no saved registers. Whatever the
  kernel answers, its first read or write gets zeroes back for buffer and count, and the parent's
  total on top of the result (`FirstCallAfterFork`).
- creat registers a file again even if it was there, so that a file's number changes under a guest
  that holds it open. A number stays over a run exactly if this does not happen (`NumberStaysIff`).
- An error after part of a transfer reaches the guest with its buffer and count moved on, and leaves a
  retry state that no later transfer is transparent from (`ErrorAfterPartIff`).
- poll leaves its third argument register zero (`TimeoutRegisterRestoredIff`).
- A directory that is rewound and read again through the same descriptor is listed as empty
  (`SecondListingIff`), and a buffer too small for the next record looks like the end of the
  directory (`EmptyReplyIff`).

## Model

| member | source | states |
|---|---|---|
| Scheduling.TopExists | src/scheduler.cpp:148-166 | every heap that is not empty has a greatest pid, the one that runs next |
| Scheduling.Top | src/scheduler.cpp:148-166 | the pid on top of a heap is in it and none is greater |
| Scheduling.RemoveAndScheduleParentSplit | src/scheduler.cpp:24-39 | reaping the last child of a finished parent succeeds exactly if the child is still in a heap; the partition of live pids into runnable, blocked and finished is kept without it, and the parent runs next |
| Scheduling.RemoveAndScheduleNextSplit | src/scheduler.cpp:122-145 | a dead pid leaves the partition wherever it was; the result is true exactly when both heaps are empty, and otherwise the greatest runnable pid is next |
| Scheduling.MarkFinishedSplit | src/scheduler.cpp:48-63 | marking succeeds exactly if the pid is in a heap and another one is; the partition is kept and the greatest runnable pid is next |
| Scheduling.PreemptSplit | src/scheduler.cpp:66-77 | preemption always succeeds, loses no one, and leaves the greatest runnable pid next even when the heaps swap |
| Scheduling.NextIsLive | src/scheduler.cpp:148-166 | the pid to run next is always a live one |
| Scheduling.RemoveElementFromHeap | src/scheduler.cpp:191-212 | draining and refilling the heap removes the element and nothing else, and tells whether it was there |
| Scheduling.Scheduler.constructor | src/scheduler.cpp:16-20 | the first pid is runnable and next |
| Scheduling.Scheduler.ScheduleNextProcess | src/scheduler.cpp:148-166 | swaps the heaps when nothing is runnable, fails exactly when nothing is left, else picks the greatest pid |
| Scheduling.Scheduler.RemovePid | src/scheduler.cpp:99-119 | the pid leaves the heap that holds it; it is an error if none does |
| Scheduling.Scheduler.RemoveAndScheduleParentOf | src/scheduler.cpp:24-39 | the object goes through the step whose outcome RemoveAndScheduleParentSplit gives, errors included |
| Scheduling.Scheduler.MarkFinished | src/scheduler.cpp:48-63 | the object goes through the step whose outcome MarkFinishedSplit gives, errors included |
| Scheduling.Scheduler.Preempt | src/scheduler.cpp:66-77 | the object goes through the step whose outcome PreemptSplit gives, errors included |
| Scheduling.Scheduler.Add | src/scheduler.cpp:80-96 | the new pid becomes runnable and runs next |
| Scheduling.Scheduler.RemoveAndSchedule | src/scheduler.cpp:122-145 | the object goes through the step whose outcome RemoveAndScheduleNextSplit gives, errors included |
| Execution.EraseChildEntry | src/execution.cpp:2343-2355 | removes the first entry of the child and returns its parent, or -1 and the tree as it was |
| Execution.Tracer.constructor | src/execution.cpp:132-136 | the first process is alone in its group, its tree and the scheduler |
| Execution.Tracer.JoinGroup | src/execution.cpp:680-733 | a thread joins its parent's group and a process founds its own; a process whose group is there already is an error |
| Execution.Tracer.ForkEvent | src/execution.cpp:680-756 | a new tracee enters the tree, the groups, the state map and the scheduler together, with a shared or a copied descriptor table |
| Execution.Tracer.NonEventExitOf | src/execution.cpp:153-207 | a dead tracee leaves every table, and a finished parent that has lost its last child is scheduled to be reaped |
| Execution.Tracer.EventExitOf | src/execution.cpp:415-510 | an exit stop marks a process with children finished, and an exit_group takes every other thread of the group with it, in whatever order the hash map yields them |
| Execution.Tracer.ExecEvent | src/execution.cpp:952-953 | exec gives the tracee a new empty descriptor table and fails in a group of several |
| Execution.Tracer.Turn | src/execution.cpp:330-626 | one turn of the event loop, for the tracee the scheduler chose, is the machine's step, errors included |
| Execution.Tracer.RunProgram | src/execution.cpp:330-626 | the event loop over any sequence of events is the machine's run, errors included |
| ExecutionInvariants.EraseChildEffect | src/execution.cpp:2343-2355 | exactly the entries of the child are gone, and the parent returned was its parent |
| ExecutionInvariants.InsertChildEffect | src/execution.cpp:717-733 | exactly one entry is added and children stay distinct |
| ExecutionInvariants.DeleteEntryEffect | src/execution.cpp:2387-2401 | one occurrence leaves its group, other groups are untouched, and no empty group stays behind |
| ExecutionInvariants.AllFinishedMeansNone | src/execution.cpp:661-673 | if every live process is finished and each waits for a child, no process is live: the process forest is well-founded |
| ExecutionInvariants.ForgetKeeps | src/execution.cpp:153-190 | dropping a childless tracee keeps groups, leaders, tree and tables consistent |
| ExecutionInvariants.DeathOutcome | src/execution.cpp:153-207 | a death fails exactly if the tracee was finished and the only child of a finished parent; otherwise the invariant is kept, or no process is left and nothing else is either |
| ExecutionInvariants.ForkOutcome | src/execution.cpp:680-756 | a fork or clone with a new pid always succeeds and keeps the invariant |
| ExecutionInvariants.ExecOutcome | src/dettraceSystemCall.cpp:607-614 | exec fails exactly in a group of several tracees, and otherwise keeps the invariant |
| ExecutionInvariants.PreemptOutcome | src/execution.cpp:330-337 | a preemption keeps the invariant of the whole event loop |
| ExecutionInvariants.SomeoneElseRuns | src/scheduler.cpp:48-63 | besides a process that has a child, some pid is always in a heap, so setting it aside cannot leave nothing to run |
| ExecutionInvariants.ExitThreadsHead | src/execution.cpp:457-498 | taking one thread out of the group keeps what the loop needs for the others |
| ExecutionInvariants.ExitThreadsOutcome | src/execution.cpp:457-498 | the exit_group loop succeeds for every order of the members, keeps the invariant and leaves only the leader |
| ExecutionInvariants.GroupExitOutcome | src/execution.cpp:446-500 | an exit_group in a group of several fails exactly if the leader is finished already |
| ExecutionInvariants.PlainExitOutcome | src/execution.cpp:502-510 | any other exit stop succeeds and keeps the invariant |
| ExecutionInvariants.StepOutcome | src/execution.cpp:330-626 | a turn fails exactly where `Fails` says; otherwise runnable, blocked and finished stay one partition of the live tracees that agrees with groups, tree and tables, and the loop ends exactly when no tracee is left, with nothing left over |
| ExecutionInvariants.InitKeepsInv | src/execution.cpp:132-136 | the invariant holds at the start |
| ExecutionInvariants.RunOutcome | src/execution.cpp:330-673 | every run that does not fail keeps the invariant, and ends clean |
| ExecutionInvariants.CleanEnd | src/execution.cpp:661-673 | from the first process on, a run ends exactly when no tracee is left, and then the finished set, the tree, the groups and the thread list are empty, so the final checks cannot fire |
| ExecutionProperties.PreemptBlocksTheRunning | src/scheduler.cpp:66-77 | the heap top that a preemption blocks is always the tracee that runs |
| ExecutionProperties.RunFailsIff | src/execution.cpp:330-626 | a run ends in an internal error exactly if it comes to an exec or exit_group with peers at the wrong time, or to the death of a finished last child of a finished parent |
| ExecutionProperties.TablesSharedWithinGroups | src/state.cpp:38-105 | at any point of any run two tracees hold the same descriptor table exactly if they are in the same thread group |
| ExecutionProperties.TablesFrame | src/execution.cpp:330-626 | no turn touches another table than the one it names, or moves another tracee to another table |
| ExecutionProperties.DescriptorTablesAreIsolated | src/state.cpp:38-53 | a surviving tracee's descriptors change only by a change made in its own thread group or by its own exec |
| ExecutionProperties.ChildDescriptors | src/state.cpp:94-105 | a child starts with its parent's descriptors, in a table it shares with exactly its thread group |
| ExecutionProperties.OrphanedGrandchildFails | src/scheduler.cpp:24-39 | for any three pids, the double fork of a daemon ends in an internal error |
| ExecutionProperties.ExitGroupAfterLeaderFails | src/execution.cpp:446-455 | for any two pids, a thread's exit_group after its leader's exit ends in an internal error |
| ExecutionInvariants.GroupExitStates | src/execution.cpp:446-500 | after an exit_group the leader waits as finished, and of its group only it is left |
| TurnEffects.FlagAfterTurn | src/execution.cpp:423-434 | the exit_group flag is set by the tracee's own call, cleared by its own exit stop, clear in a new tracee, and untouched by every other turn |
| TurnEffects.OtherFaults | src/execution.cpp:513-530 | a turn fails by the flag exactly if it is the death of a tracee whose flag is still set |
| TurnEffects.NeverFailsByTheFlag | src/execution.cpp:423-434 | no run in which deaths come after exit stops fails by the flag |
| TurnEffects.LoneExitGroupSucceeds | src/execution.cpp:415-535 | from any state of a run, a process without threads and children that calls exit_group, stops and dies is gone, and only it |
| TurnEffects.LiveAfterTurn | src/execution.cpp:330-626 | a turn takes exactly the tracee that dies or the other threads of a group that ends, and adds exactly the one that is born |
| TurnEffects.WaitingAfterTurn | src/execution.cpp:415-510 | a process is finished from its exit stop with children, or its group's end, until its death, and no one else is |
| TurnEffects.ChildrenAfterTurn | src/execution.cpp:680-756 | a birth makes the new tracee a child of its parent's group leader, and otherwise only the entries of the dead go |
| TurnEffects.GroupAfterTurn | src/execution.cpp:680-733 | a thread is in its parent's group, a process in its own, and nobody changes groups |
| TurnEffects.StaleAfterTurn | src/execution.cpp:153-190 | the thread-group number of a dead process stays and that of a dead thread goes |
| TurnEffects.StaleOverRuns | src/execution.cpp:153-190 | over every run, entries without a live tracee are those of processes |
| Bypass.StepBudget | src/scheduler.cpp:66-96 | no turn of another tracee lets a third one be preempted more often before `p` runs than the heaps allow for |
| Bypass.WithinBudget | src/scheduler.cpp:148-166 | the bound holds over every run in which `p` is passed over |
| Bypass.BypassedAtMostTwice | src/scheduler.cpp:66-96 | between two turns of a tracee that stays in the heaps, any other is preempted at most twice, and at most once if it was alive when the first turn began |
| ExitOrder.ExitThreadsLeaves | src/execution.cpp:457-498 | by induction over the members in any order, the loop succeeds and comes to the closed form |
| ExitOrder.ExitThreadsClosed | src/execution.cpp:457-498 | the exit_group loop comes to one closed form that does not mention the order |
| ExitOrder.BothOrders | src/execution.cpp:446-500 | two orders of the same group's members give states that no later turn can tell apart |
| ExitOrder.StepAlike | src/execution.cpp:330-626 | states that differ only by such an order take the same turns to such states |
| ExitOrder.ExitOrderIsInvisible | src/execution.cpp:457-498 | two runs with the same events, whatever orders the hash map yields, make the same schedule and have the same outcome |
| Replay.EntryCaptures | src/ptracer.cpp:46-58 | at an entry stop number and arguments are read back as the trap loaded them, in every register layout, even where the return register is an argument register |
| Replay.RewindIsReady | src/utilSystemCalls.cpp:52-117 | after replaySystemCall the next trap loads the cached number and arguments |
| Replay.ReplayRoundTrip | src/utilSystemCalls.cpp:108-116 | entry, exit with any result, replay, entry: the cached number and arguments are captured again |
| Replay.EnterFollows | src/execution.cpp:966-1062 | an entry stop of one tracee keeps every tracee's protocol, including the skip of a call whose first argument was rewritten too late and its re-execution without a second pre-hook |
| Replay.ReturnFollows | src/execution.cpp:350-390 | an exit stop of one tracee keeps every tracee's protocol, including replays |
| Replay.NeverBroken | src/execution.cpp:361-384 | a protocol that ends unbroken was unbroken at every point before |
| Replay.StepFollows | src/execution.cpp:330-626 | an entry, exit or clone stop of one tracee keeps all of them in their protocols, and a new tracee joins idle |
| Replay.EveryTraceeFollows | src/execution.cpp:361-384 | for every layout and interleaving, with tracees joining on the way, at every point each call is hooked once, takes effect once with what its pre-hook left, and its post-hook runs exactly if asked for and sees the same arguments |
| Replay.FollowsFromTheStart | src/execution.cpp:330-626 | so it is from the first process on, for every tracee of every run |
| ReplayTracer.Ptracer.constructor | src/ptracer.cpp:29-37 | the cache starts empty and no rewrite is noted |
| ReplayTracer.Ptracer.UpdateState | src/ptracer.cpp:207-234 | the register copy is that of the tracee that stopped |
| ReplayTracer.Ptracer.CaptureSyscallArgs | src/ptracer.cpp:46-58 | the loop fills the cache with the saved first argument and the five other argument registers |
| ReplayTracer.Ptracer.SaveSyscallArgs | src/ptracer.cpp:84-86 | the copy equals the cache |
| ReplayTracer.Ptracer.RestoreSyscallArgs | src/ptracer.cpp:88-90 | the cache equals the copy |
| ReplayTracer.Ptracer.WriteSyscallArgsToRegs | src/ptracer.cpp:92-104 | every argument register, and the saved first argument, holds what the cache holds |
| ReplayTracer.Ptracer.ChangeSystemCall | src/ptracer.cpp:314-362 | the kernel's number register, and the one a fresh trap loads from, hold the new number |
| ReplayTracer.Ptracer.Perform | src/ptracer.cpp:364-427 | an argument write reaches registers, cache and tracee alike, and a late rewrite of a latched first argument is noted |
| ReplayTracer.Ptracer.ReplaySystemCall | src/utilSystemCalls.cpp:52-117 | registers are those from which RewindIsReady holds |
| ReplayTracer.Ptracer.CallPreHook | src/execution.cpp:1022-1055 | a pre-hook that rewrote the latched argument turns the call into a skipped one with its number and post-hook wish kept |
| ReplayTracer.Ptracer.SeccompStop | src/execution.cpp:966-1062 | the entry stop takes the shared cache and all tracees through the machine's step |
| ReplayTracer.Ptracer.CloneStop | src/execution.cpp:538-603 | the clone flags are read through the shared cache, which leaves the other tracees' arguments alone, and the child joins with a clean state |
| ReplayTracer.Ptracer.CallPostHook | src/execution.cpp:361-384 | the post-hook's writes before and after a replay act on its own tracee's arguments |
| ReplayTracer.Ptracer.SyscallStop | src/execution.cpp:350-390 | the exit stop takes the shared cache and all tracees through the machine's step |
| GuestRegisters.ActAllRegister | src/ptracer.cpp:364-427 | after any hook each register holds the last thing the hook wrote there, or what it held before |
| GuestRegisters.GuestResumes | src/execution.cpp:350-390 | after a post-hook that asks for no replay the guest goes on with, in each register, the hook's last write, else the kernel's value, else what it held in the call |
| GuestRegisters.ResultOfHook | src/ptracer.cpp:200-203 | the result the guest sees is the hook's last one, else the kernel's, with argument and number writes to a shared register accounted for |
| GuestRegisters.ResumesUnhooked | src/execution.cpp:350-390 | without a post-hook the guest gets the kernel's value and its registers as they were in the call |
| GuestRegisters.InTheCall | src/execution.cpp:966-1062 | in the call each register holds the pre-hook's last write, else what the trap left |
| GuestRegisters.CallIsTransparent | src/execution.cpp:966-1062 | a call that no hook has a say in changes the return register, the kernel's copies of number and first argument, and nothing else |
| GuestRegisters.OthersUntouched | src/ptracer.cpp:314-454 | a register with no part in system calls keeps its value through every stop, replays and skipped calls included |
| GuestRegisters.SpawnReadsFlags | src/execution.cpp:538-603 | at a clone the tracer sees the arguments the guest passed, and parent and child go on with their own registers |
| GuestRegisters.LogTellsTheCache | src/execution.cpp:1051-1055 | after a hook the shared cache, and the copy kept for the post-hook, hold what the hook left |
| GuestRegisters.SkippedWhen | src/ptracer.cpp:364-388 | a call is executed again only where the first argument is latched; always if the pre-hook leaves another one, never if it writes no other |
| ShortTransfer.Hook.HandleDetPost | src/dettraceSystemCall.cpp:2242-2340 | the post-hook of read, and that of write, on a blocking descriptor: replay with the rest of the buffer, or end with the total and the old arguments |
| ShortTransfer.MoveTwice | src/dettraceSystemCall.cpp:3842-3923 | moving m bytes and then n right behind them is moving m + n |
| ShortTransfer.OneAnswer | src/utilSystemCalls.cpp:29-50 | after any answer arg2 is the buffer plus the total and arg3 the count minus it, or the guest has the total and its own arguments and the state is reset |
| ShortTransfer.FinishesTheCount | src/dettraceSystemCall.cpp:2242-2340 | from any point of the loop the guest gets the sum of the counts, never more than it asked for, and fewer only at an end of file |
| ShortTransfer.FinishesTheTransfer | src/dettraceSystemCall.cpp:3842-3923 | the bytes moved are those one call would have moved, in place and in order |
| ShortTransfer.ErrorAfterPartIff | src/dettraceSystemCall.cpp:2300-2304 | an error goes to the guest as it is; the guest has its own arguments back exactly if nothing was moved, and else no later transfer starts from a reset state |
| ShortTransfer.PreemptedPerBlock | src/utilSystemCalls.cpp:29-50 | a transfer is preempted exactly as often as the kernel answers that it would block |
| ShortTransfer.TransparentIff | src/dettraceSystemCall.cpp:2242-2340 | whatever the kernel answers, the guest sees one call exactly if the retry state is reset or happens to name this call |
| ShortTransfer.FirstCallAfterForkIsNot | src/state.cpp:38-92 | there are answers for which a forked child's first transfer can be told apart, unless it asks for no bytes at address 0 |
| ShortTransfer.ReturnsWhatWasSaved | src/dettraceSystemCall.cpp:2242-2340 | a transfer taken for a retry returns the registers saved before it and counts from the total left behind, whatever the kernel answers |
| ShortTransfer.FirstCallAfterFork | src/state.cpp:38-92 | every completed first transfer of a forked child returns zeroes for buffer and count and adds the parent's total; it is transparent exactly if all of these are zero |
| BoundedPoll.AsInt | src/dettraceSystemCall.cpp:2069-2085 | the cast of the timeout register keeps values that fit, always fits, and changes a value by multiples of 2^32 only |
| BoundedPoll.ReplaysKeepTheTimeout | src/dettraceSystemCall.cpp:2069-2117 | the kernel never waits, and a replay, which is made exactly while nothing is ready and retries are left, is entered with the guest's own timeout |
| BoundedPoll.Hook.HandleDetPre | src/dettraceSystemCall.cpp:2069-2085 | the kernel polls without waiting and the timeout is remembered across replays |
| BoundedPoll.Hook.HandleDetPost | src/dettraceSystemCall.cpp:2087-2117 | replays with one preemption each, or ends with the clock advanced if nothing was ready |
| BoundedPoll.PollOutcome | src/dettraceSystemCall.cpp:2069-2117 | a poll of T ms is replayed at most T times; the answer is the first that found something or the last one; the clock moves by exactly T ms in the latter case and not otherwise; the retry state is reset |
| BoundedPoll.TimeoutRegisterRestoredIff | src/dettraceSystemCall.cpp:2069-2117 | the guest's timeout register is its own afterwards exactly if it did not ask to wait |
| LogicalClock.ConversionsRoundTrip | src/logicalclock.cpp:22-53 | every time survives both conversions, and nothing overflows 64 bits up to (2^63-1)/1000 microseconds either way |
| LogicalClock.TimespecRoundTrip | src/logicalclock.cpp:22-36 | a normalised timespec after 1970 survives exactly if it is of whole microseconds |
| LogicalClock.NormalisedIff | src/logicalclock.cpp:22-29 | the timespec of a time is normalised exactly if the time is not negative or is a whole second |
| LogicalClock.TruncMeaning | src/logicalclock.cpp:10-46 | the casts leave a remainder of the time's sign and less than a unit |
| LogicalClock.PartsOfASecond | src/logicalclock.cpp:22-46 | time_t, timespec and timeval agree on the second, and the rest is less than a second, not negative from 1970 on |
| LogicalClock.SecondsRoundTrip | src/logicalclock.cpp:10-20 | whole seconds survive, and a time loses less than a second, toward zero |
| LogicalClock.OldFilesLookOlderIff | src/utilSystemCalls.cpp:139-154 | files from before the run show an earlier second than any file made in it exactly if the epoch is not within the first second of Unix time |
| LogicalClock.WholeSecondEpoch | src/logicalclock.cpp:16-20 | an epoch given in whole seconds is never one of those |
| HostFiles.ValueMapper.constructor | include/ValueMapper.hpp:63-66 | no identity has a number yet |
| HostFiles.ValueMapper.AddRealValue | include/ValueMapper.hpp:74-94 | an identity gets the next number even if it had one |
| HostFiles.ValueMapper.Virtual | src/utilSystemCalls.cpp:215-217 | a known identity keeps its number, an unknown one gets the next |
| HostFiles.GlobalState.constructor | src/globalState.cpp:3-26 | no file has a number or a time yet and the first clock is at the epoch |
| HostFiles.GlobalState.IncrementTime | include/state.hpp:322 | one clock advances by the step and no other moves |
| HostFiles.GlobalState.HandlePostOpens | src/utilSystemCalls.cpp:800-832 | a file that the open made gets a new number and the process's time, a truncated one only the time, and time passes in both cases and no other |
| HostFiles.GlobalState.HandleStatFamily | src/utilSystemCalls.cpp:156-259 | stat shows the virtual number and the recorded or pre-run second, and records no time |
| HostFiles.OpenIsPlayed | src/utilSystemCalls.cpp:800-832 | an open that made the file is a creation of the machine, one that truncated it a truncation, and a failed or plain open changes nothing |
| HostFiles.PlayLinked | src/utilSystemCalls.cpp:800-832 | one operation on two hosts that know the same of every file shows the same and leaves them so |
| HostFiles.HostIsInvisible | include/ValueMapper.hpp:74-117 | for any sequence of creations, truncations, stats, deletions, forks and waits, two hosts that choose and recycle identities as they like show the same numbers and times and end with the same next number |
| HostFiles.StartsLinked | include/state.hpp:163-192 | at the start any two hosts with the same files are so related |
| HostFiles.UnhookedFileLooksNewIff | include/state.hpp:163-192 | a file made without a hook looks new exactly if the tracer has not seen its identity before |
| HostFiles.RunKeepsMapper | include/ValueMapper.hpp:74-94 | over every run numbers stay distinct and below the next one |
| HostFiles.NumbersIdentifyFiles | src/utilSystemCalls.cpp:215-217 | at any point of a run a file shows the same number twice, and two files show the same exactly if they are one |
| HostFiles.RunKeepsNumber | include/ValueMapper.hpp:74-117 | over any run that does not delete it, a file's number never falls, and stays exactly if the file is not registered again |
| HostFiles.NumberStaysIff | src/utilSystemCalls.cpp:215-217 | over any run that does not delete the file, and whatever others recycle, stat shows the number it showed before exactly if the file has not been registered again |
| HostFiles.StartIsOk | src/globalState.cpp:3-26 | the tracer's start satisfies what the run lemmas assume of times and numbers |
| HostFiles.MadeIsRecorded | src/utilSystemCalls.cpp:800-832 | a file made or truncated at any point of a run, and not deleted since, exists and has its time on record |
| HostFiles.UntouchedStaysUnrecorded | src/utilSystemCalls.cpp:139-154 | a file from before the run that is left alone exists and has no time on record, whatever identities are recycled |
| HostFiles.RunKeepsTime | include/state.hpp:322-343 | over every run no clock goes back, and clocks and recorded times are at or after the epoch |
| HostFiles.MadeFilesLookNewer | src/utilSystemCalls.cpp:139-154 | after any run a file made or truncated in it, and not deleted since, shows a later second than one from before that was left alone, unless both the epoch and its time are within the first second of Unix time, and then it does not |
| FileTimes.ClockMoves | include/state.hpp:322-343 | making or truncating a file takes one step, a wait what it asked for, a new process its parent's time, and no other clock moves |
| FileTimes.ShowsTheMakersTime | src/utilSystemCalls.cpp:800-832 | right after it is made or truncated a file shows the second of its maker's clock before the operation |
| FileTimes.RunKeepsTimeOf | src/utilSystemCalls.cpp:139-154 | a file's time stays until it is made again, truncated or deleted, whatever identities others recycle |
| FileTimes.LastTimeStays | src/utilSystemCalls.cpp:800-832 | at the end of any run a file has the time of its maker's clock when it was last made or truncated |
| FileTimes.ShowsItsLastTime | src/utilSystemCalls.cpp:156-259 | and stat shows that time in whole seconds |
| FileTimes.NothingIsForgotten | include/state.hpp:163-192 | over every run the tables of numbers and times only grow, deletions included |
| FileTimes.DeletedFileShowsThrough | include/state.hpp:163-192 | a file that appears without a hook under a deleted file's identity shows that file's number and time |
| FileTimes.ClockGains | include/state.hpp:322 | from one making to a later one a process's clock gains a step at least, over any run in between |
| FileTimes.LaterFilesLookNoOlder | src/utilSystemCalls.cpp:800-832 | of two files that one process makes one after the other, the later is a step later at least and shows no earlier second |
| FileTimes.OldFilesShowTheSecondBefore | src/utilSystemCalls.cpp:139-154 | a file from before the run that is left alone shows the time one second before the epoch |
| DirectoryListing.SortMembers | include/directoryEntries.hpp:129-152 | sorting is a permutation of the records |
| DirectoryListing.SortDescends | include/directoryEntries.hpp:129-152 | sorting puts the records in descending order of names |
| DirectoryListing.OrderIsUnique | include/directoryEntries.hpp:148-152 | distinct names have one descending order |
| DirectoryListing.DirectoryEntries.constructor | include/directoryEntries.hpp:57-59 | a new store is empty and not sorted |
| DirectoryListing.DirectoryEntries.AddChunk | include/directoryEntries.hpp:67-70 | a chunk goes behind what was read before |
| DirectoryListing.DirectoryEntries.SortOurEntries | include/directoryEntries.hpp:129-152 | the queue becomes the sorted records, and it is an error if it was not empty |
| DirectoryListing.DirectoryEntries.GetSortedEntries | include/directoryEntries.hpp:79-115 | the loop hands out the longest prefix of the queue that fits, sorting before the first time |
| DirectoryListing.VirtualizeEntries | include/dettraceSystemCall.hpp:2322-2348 | in place and in order, every record gets its virtual number and offset zero |
| DirectoryListing.HandleDents | include/dettraceSystemCall.hpp:2369-2443 | errors go to the guest, chunks are kept and the call replayed, and the end of the directory is answered from the store |
| DirectoryListing.ReadingIsServed | include/dettraceSystemCall.hpp:2369-2443 | however the directory comes in chunks, the guest is served from all of it, sorted |
| DirectoryListing.VirtualizeInStep | include/dettraceSystemCall.hpp:2322-2348 | the same entries on two hosts get the same numbers, and the hosts go on knowing the same of every file |
| DirectoryListing.ListingIsCanonical | include/dettraceSystemCall.hpp:2369-2443 | two hosts that list the same directory in any order, chunks and inode numbers give the guest the same records call by call, for any buffer sizes |
| DirectoryListing.ListingIsComplete | include/directoryEntries.hpp:79-115 | with buffers that take every record, the guest gets every name once, in descending order |
| DirectoryListing.EmptyReplyIff | include/directoryEntries.hpp:79-115 | the guest is told that the directory is over exactly if nothing is pending or the next record does not fit |
| DirectoryListing.SecondListingIff | include/directoryEntries.hpp:82-85 | reading the directory again through the same descriptor lists it in full exactly if no reply has been given before, or it is empty |
| ListingReplies.ReplyFits | include/directoryEntries.hpp:79-115 | a reply holds the first pending records as they are, at most as many bytes as the buffer, and one more record would not have fitted |
| ListingReplies.EveryReplyFits | include/dettraceSystemCall.hpp:2369-2443 | over any series of answers each end of the directory gets one reply, and it fits its buffer |
| ListingReplies.RepliesAreFull | include/directoryEntries.hpp:87-113 | when a directory is read, a reply that is not the last could not have held the next record |
| ListingReplies.ErrorIsPassedOn | include/dettraceSystemCall.hpp:2371-2374 | an error goes to the guest and changes nothing |
| ListingReplies.FailuresDoNotShow | include/dettraceSystemCall.hpp:2371-2374 | a listing with errors on the way gives the replies it would have given without |
| ListingReplies.VirtualizeKeepsEntries | include/dettraceSystemCall.hpp:2322-2348 | every record keeps name, kind and length, gets offset zero and the number the mapper now has for its file, and no number handed out before changes |
| ListingReplies.ListingTells | include/dettraceSystemCall.hpp:2369-2443 | every record the guest is given tells what the directory says of its name, and the number that stat shows afterwards |
| CodePatching.PokedByte | src/execution.cpp:758-802 | a poke changes the bytes it writes and no others |
| CodePatching.Words | src/execution.cpp:758-802 | the word count is the least that holds the bytes |
| CodePatching.Tracee.PeekText | src/execution.cpp:758-802 | a word is read exactly if all its bytes are mapped |
| CodePatching.Tracee.PatchSymbol | src/execution.cpp:758-802 | the word loop fails exactly if the code is too long or a word is unmapped, and else writes the code, then poison by position in the word, and no byte past the symbol |
| CodePatching.Tracee.PatchWord | src/execution.cpp:787-798 | one word is patched, or it fails exactly if a byte of it is unmapped |
| CodePatching.Merge | src/execution.cpp:787-798 | the inner loop builds a word from code, poison and what was there |
| CodePatching.Tracee.DisableVdso | src/execution.cpp:758-802 | all symbols are patched, or it fails exactly if one cannot be |
| CodePatching.PatchedByte | src/execution.cpp:758-802 | every byte of a symbol ends as that symbol's code or poison, whatever else is patched |
| CodePatching.Untouched | src/execution.cpp:758-802 | a byte outside all symbols keeps its value |
| CodePatching.PatchOrderDoesNotMatter | src/execution.cpp:758-802 | disjoint symbols give the same memory in any order |
| CodePatching.Tracee.ReadWords | src/execution.cpp:918-963 | reading words gives the bytes there, or fails exactly if one is unmapped |
| CodePatching.Tracee.WriteWords | src/execution.cpp:918-963 | writing words changes those bytes only |
| CodePatching.Tracee.HandleExecEvent | src/execution.cpp:906-963 | the tracee runs the stub with the rest of the last word intact, and afterwards memory is as before but for the patches |
| CodePatching.RestoreUndoes | src/execution.cpp:918-963 | writing the saved words back undoes the stub for every stub and word size |
| CodePatching.ByteAfterExec | src/execution.cpp:918-963 | after exec each byte is its own at the entry point's words, code or poison by position in a symbol, and its own elsewhere |
| CodePatching.StubLeavesNoTraceIff | src/execution.cpp:918-963 | whatever memory holds, the injection leaves no trace exactly if the vDSO functions stay clear of the words at the entry point |
| PathNormaliser.LexicallyNormalizePath | src/utilSystemCalls.cpp:581-609 | the result is the walk of the components from the root, rendered; a relative path is returned as it is |
| PathNormaliser.ComponentLoop | src/utilSystemCalls.cpp:586-601 | the loop's stack is the walk of the split path, with `..` held at the root |
| PathNormaliser.JoinLoop | src/utilSystemCalls.cpp:603-607 | the loop joins every component behind a slash |
| PathNormaliser.SplitConcat | src/utilSystemCalls.cpp:581-609 | splitting distributes over joining with a slash |
| PathNormaliser.SplitJoin | src/utilSystemCalls.cpp:581-609 | splitting what was joined gives the components back |
| PathNormaliser.NormalisedSplits | src/utilSystemCalls.cpp:581-609 | the result splits into exactly the kept components and names the same place |
| PathNormaliser.NormalisedIsIdempotent | src/utilSystemCalls.cpp:581-609 | normalising twice is normalising once |
| PathNormaliser.NormalisedIsCanonical | src/utilSystemCalls.cpp:581-609 | absolute paths normalise alike exactly if they walk to the same place |
| PathNormaliser.NormalisedPrefix | src/utilSystemCalls.cpp:581-609 | normalising a directory first makes no difference below it |
| PathNormaliser.NameIsAppended | src/utilSystemCalls.cpp:597-598 | a name at the end of an absolute path is appended to the normal form of the rest |
| PathNormaliser.UpUndoesName | src/utilSystemCalls.cpp:593-596 | `..` takes back the name before it |
| PathNormaliser.UpStopsAtRoot | src/utilSystemCalls.cpp:593-596 | `..` at the root stays at the root |
| PathNormaliser.DotsAndSlashesDrop | src/utilSystemCalls.cpp:597-598 | `.` and an empty component count for nothing |
| PathNormaliser.RootIsNormal | src/utilSystemCalls.cpp:581-609 | `/` and `/..` are the root |
| PathNormaliser.DetourDoesNotHide | src/utilSystemCalls.cpp:638-663 | a detour through a name and `..` does not change the test |
| PathNormaliser.UnderIsPrefix | src/utilSystemCalls.cpp:638-663 | the string test with its boundary check is the test for a prefix of components |
| PathNormaliser.TopologyTestIsComponentPrefix | src/utilSystemCalls.cpp:638-663 | the test holds exactly of the absolute paths, however spelt, that walk to a hidden directory or below it |

## Assumptions on the environment

- Pids are positive, a new pid is above every live one, and it has not been a process before.
- A finished tracee is stopped in its exit and makes no more calls; a tracee killed by a signal has no
  children left; on exit_group every other thread answers with its final exit.
- For fairness, a pid names one tracee within the window that is looked at.
- The layouts of the registers are those whose argument registers differ from each other and from
  the registers that hold the number. A post-hook sets the result before it replays.
- Two hosts hold the same files, with identities that are distinct among the files that exist at a
  time; a directory lists each name once, with the identity that stat would show.

## Left out

- Namespaces, mounts, the seccomp filter and the command line: system calls with no state of their own.
- The dispatch tables, CPUID, uname and the other constant answers.
- ELF and `/proc/PID/maps` parsing: the vDSO functions are an input of the patching model.
- Kernels that report the seccomp stop after the call, lost-replay recovery, and the reads of arguments from `/proc`: behaviour of single architectures that these files do not settle.
- The program counter: a replayed call is one whose next trap is taken with the registers as they are left.
- Pre-hooks that cancel their call, and hooks that write the return register before the call.
- Stale entries of threadGroupNumber met by a recycled pid: excluded by the assumption on new pids.
- Errors, timers and non-blocking descriptors in read and write: the transfers are those of blocking descriptors that answer with a count or EAGAIN.
- ppoll, select and the other waits: variants of poll with another unit of time.
- getrandom and the pseudo-random generator: a generator of 2^16 states whose draws depend on nothing else.
- 64-bit wrap-around of addresses, inode numbers and clocks.
- Execution.Tracer.Turn: signals and the stops that run hooks are no events here, because they change none of these tables; hooks are the matter of `Replay.dfy`.
- Execution.Tracer.RunProgram: the same loop without those stops.
- Replay.EnterFollows: injected and cancelled calls and lost-replay recovery are left out, because they belong to single hooks and kernels.
- ReplayTracer.Ptracer.ChangeSystemCall: the separate number writes of s390 and arm are left out, because no layout describes them.
- ReplayTracer.Ptracer.Perform: s390's writeArg1, which leaves the argument register alone, is left out for the same reason.
- ReplayTracer.Ptracer.ReplaySystemCall: the program counter and the checks of the instruction before it are left out, because memory is no part of this machine.
- ReplayTracer.Ptracer.SeccompStop: the injection for CPUID and lost-replay recovery are left out.
- ReplayTracer.Ptracer.CloneStop: the reading of arguments from `/proc` on riscv is left out; the child's registers are the kernel's choice.
- ShortTransfer.Hook.HandleDetPost: the branches for timers and non-blocking descriptors are left out, because they return the call as it is or belong to other state.
- CodePatching.Tracee.DisableVdso: a tracee without a vDSO is one with no symbols, and the protection of the vvar pages is left out, because access rights are no part of this memory.
- DirectoryListing.HandleDents: models one descriptor's store; its creation at the first call and its removal on close are left out, and records are values rather than bytes, because their layout is the kernel's.
- DirectoryListing.SortDescends: two records of one name keep one order here, while std::sort may choose either; the theorems about hosts are for distinct names.
- HostFiles.GlobalState.HandleStatFamily: only the number and the second are modelled, because the other fields are constants or are passed on.
- Bypass.BypassedAtMostTwice: assumes that within the window a pid names one tracee, because a recycled pid would be counted as one tracee.
- CodePatching.Tracee.HandleExecEvent: the call that the stub makes in the tracee is left out, because it is the kernel's.
