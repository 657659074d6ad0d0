# Starry Mix kernel services, modelled in Dafny

Starry Mix is a Linux-compatible kernel layer. This project models the parts of it
whose state is easy to get wrong, and proves what they promise: for every run, every
interleaving of steps, or every input.

| file | models |
|---|---|
| `Tmpfs.dfy`, `TmpfsCode.dfy` | the in-memory file system's inode table, link counts and drops |
| `FutexQueue.dfy`, `Futex.dfy` | futex wait queues, tables, guards and their garbage collection |
| `Epoll.dfy` | the epoll interest map and ready list |
| `Shm.dfy` | the System V shared memory manager |
| `Alarm.dfy`, `Timers.dfy` | the alarm task's deadline heap; interval timers and process times |
| `Getdents.dfy` | getdents64 record packing and the resumable directory offset |
| `Pipe.dfy` | the pipe's ring buffer, its readers, writers and resizes |
| `IoVec.dfy` | the scatter/gather cursor over user buffers |
| `LineDiscipline.dfy` | the terminal's input reader and line delivery |
| `Base.dfy` | a few shared definitions |

Each component has a value-level description (a state, its steps, an invariant, a
theorem about runs) and, where the source updates fields in place, classes whose
methods do the same updates and are proved to reach exactly the described state.
Objects behind reference-counted pointers are named by integers; "alive" means that
the pointer's target still exists.

## How the components are modelled

- **tmpfs.** The hash maps of all directories are kept in one map keyed by (directory,
  name). The abstract operations say what happens to names and live nodes and then
  *recount* all links; the classes adjust counts one reference at a time, as the
  source does, and are proved to arrive at the same state. Strong counts are
  the slab's clone, one per live node, and the caller's temporaries. The order in
  which a directory's entries are dropped is left open. Each operation is one step.
- **Futex.** Each lock-protected action is one step, so a requeue is two steps with
  waiters in flight between them. A waker wakes its thread whichever wait call queued
  it, and a timed-out wait leaves its entry behind. The test and the removal in
  `Drop for FutexGuard` are one step in the main theorem; `GuardDropRace` shows what
  happens when they are not, and `LateRunIff` and `LateNeededIff` when exactly that goes
  well.
- **Epoll.** Files may change any number of times before each round of `poll_events`, at
  any point of a round (before the interest is polled, before its flag is cleared, after
  that), and in `repoll` before and after the registration and before it wakes what it
  found ready. Assumed of files: a poll set fires every waker whose mask the file comes to
  meet, and a fired waker is removed. Assumed of the poller, which is not part of this
  model: a task sleeps only after it has registered and called `poll_events` once more.
  Pushes made by `repoll` inside `poll_events` are appends to the same list.
- **Shared memory.** Each system call is one step. A new identifier is not in use.
  Mapping and unmapping may fail, and any address may be found. A process exit that
  trips the assertion in `detach_process`, and an attach that panics, end a run.
- **Alarm.** Looking, listening, checking, sleeping, pushing, notifying and popping are
  separate steps. Any deadline may be pushed at any time, since a pusher may have read
  the clock long before. The clock does not run backwards.
- **Timers.** Alarms have a timer and an addressee: whichever task runs when `renew_timer`
  is called, which is the thread itself or the alarm task.
- **Byte movers.** One invocation of a poll closure is one step. User memory is a map
  from mapped addresses to bytes.
- **Line discipline.** Every round of the poll loop is a step of its own, so readers may
  come in anywhere. As the source has it, a delivered line stays in the line buffer and
  only graphic characters are stored. How the output differs from that of the canonical
  mode of section 11.1.6 of IEEE Std 1003.1-2017 XBD in these two respects is stated
  exactly.

## Where the source does not keep a promise

Each of these has a lemma with the exact condition, and one with an input or run that
shows it.

- `rename` onto an existing name empties a directory that it only meant to look at
  (`Tmpfs.RenameNames`, `Tmpfs.RenameLosesFile`).
- `unlink` removes a directory with files in it that has lost its dot entries, because it
  counts entries (`Tmpfs.UnlinkLosesIff`, `Tmpfs.UnlinkLosesFile`).
- `rename` leaves ".." of a directory pointing to its old parent (`Tmpfs.RenameDotDotIff`,
  `Tmpfs.DotDotStale`).
- A wake counts the entries of waits that have timed out, and so may leave a blocked task
  asleep (`Futex.WakeExactIff`, `Futex.StaleAbsorbs`).
- Two guards dropped at once can leave an entry that nobody wants (`Futex.LateNeededIff`,
  `Futex.LeftBehind`).
- A guard drop whose test is out of date can strand a blocked waiter
  (`Futex.RemoveLateStrands`, `Futex.LateRunIff`, `Futex.GuardDropRace`).
- `shmat` whose mapping fails, or at an address where the process has a segment already,
  leaves the two attach records disagreeing; after a failed mapping, process exit trips
  an assertion (`Shm.ShmatAgrees`, `Shm.RunAgrees`, `Shm.FailedMapTrips`,
  `Shm.FailedMapping`).
- IPC_RMID on a segment that nobody has attached does not remove it until somebody has
  attached and detached it (`Shm.RunRemovedIff`, `Shm.MarkedStays`).
- A deadline that is pushed late makes the alarm task pop another entry than it looked at
  (`Alarm.PopMatchesIff`, `Alarm.StalePush`).
- The renewed alarm of a periodic timer that the alarm task fires is addressed to the alarm
  task, so that a blocked thread gets no further alarm (`Timers.LatestAlarm`,
  `Timers.BlockedGetsNone`, `Timers.AlarmAstray`).
- An edge-triggered interest is reported again without a new edge while its file is ready
  (`Epoll.PollExact`, `Epoll.EdgeRepeats`).
- A report has all events of its file, also those that were not asked for
  (`Epoll.AskedOnlyIff`, `Epoll.UnaskedReported`).
- `shmat` panics on an unknown identifier and on a second attach
  (`Shm.SecondAttachPanics`, `Shm.AttachPanics`).
- In canonical mode a delivered line is delivered again with the next one
  (`LineDiscipline.KeepIff`, `LineDiscipline.LineTwice`), and blanks are not delivered
  (`LineDiscipline.StoreIff`, `LineDiscipline.BlankDropped`).
- A pipe reports end of file before unread bytes if a writer writes and closes between the
  reader's two looks (`Pipe.EofLate`, `Pipe.EofRace`).
- Draining terminal input while a line is partly delivered makes the next poll slice
  out of range (`LineDiscipline.DrainFailsIff`, `LineDiscipline.DrainFails`).
- When a later child cannot be looked up, getdents64 fails after it has moved the offset
  past the entries it had packed; a buffer that cannot be written has the same effect
  (`Getdents.LosesIff`, `Getdents.LosesEntries`, `Getdents.LosesUnwritten`).
- A directory record of 65536 bytes or more has a truncated length field
  (`Getdents.LengthFieldExact`, `Getdents.LongName`); no file system is known to have a
  name that long.

## Model

| member | source | states |
|---|---|---|
| Tmpfs.RunConsistent | api/src/vfs/tmp.rs:77-214 | in every state of every run, each stored inode's link count is the number of entries that name it, every entry and live node resolves to an occupied slot holding that inode, an inode is stored only while an entry or node holds it, and only stored directories have entries |
| Tmpfs.StepValid | api/src/vfs/tmp.rs:366-459 | lookup, create, link, unlink, rename and node drop each keep the counting invariants, for any names |
| Tmpfs.Determined | api/src/vfs/tmp.rs:96-103 | link counts and slot occupancy are determined by entries and live nodes: two consistent states over the same inodes that agree on those are equal |
| Tmpfs.RefNewInv | api/src/vfs/tmp.rs:199-203 | a new reference keeps all counts exact with one more reference in flight |
| Tmpfs.RefDropInv | api/src/vfs/tmp.rs:210-214 | dropping a reference in flight keeps all counts exact, and vacates a slot only when nothing refers to it |
| Tmpfs.RenameNames | api/src/vfs/tmp.rs:426-449 | a successful rename moves the source's inode to the destination and removes the source name; if both named one inode, no name changes beyond what the probes lose; all other names survive if and only if the destination was fresh or the directories it probes (the source's inode, and the destination's if its node is temporary) hold no other entries |
| Tmpfs.RenameCounts | api/src/vfs/tmp.rs:426-449 | every successful rename lowers each inode's link count by exactly the number of its entries that the probes lose or the move displaces |
| Tmpfs.RenameEmpties | api/src/vfs/tmp.rs:426-459 | renaming a directory onto another existing name in the same directory succeeds and loses every entry of the renamed directory |
| Tmpfs.RenameLosesFile | api/src/vfs/tmp.rs:426-459 | a run from a new file system in which a rename succeeds and a file in the renamed directory is gone |
| Tmpfs.CreateThenLookup | api/src/vfs/tmp.rs:366-391 | a created name resolves to the created inode |
| Tmpfs.CreateUnlinkDrop | api/src/vfs/tmp.rs:376-459 | create, unlink and dropping the node restore the whole file system: entries, counts, slots and nodes |
| Tmpfs.UnlinkCounts | api/src/vfs/tmp.rs:408-423 | unlink lowers exactly the unnamed inode's link count, by one |
| Tmpfs.LinkCounts | api/src/vfs/tmp.rs:393-406 | link raises exactly the named inode's link count, by one |
| Tmpfs.LinkThenLookup | api/src/vfs/tmp.rs:366-406 | a new link resolves to the inode it was made for |
| Tmpfs.LookupAdds | api/src/vfs/tmp.rs:366-374 | lookup adds one node, on the inode that the name has, and changes nothing else |
| Tmpfs.OutcomesIff | api/src/vfs/tmp.rs:366-406 | exactly when lookup, create and link answer ENOTDIR, ENOENT or EEXIST; a failure changes nothing |
| Tmpfs.CreateCounts | api/src/vfs/tmp.rs:131-177 | a new file has one link and a new directory two; a new directory gives its parent one more; no other count changes |
| Tmpfs.CreateDotDot | api/src/vfs/tmp.rs:131-177 | ".." of a new directory leads to the directory it was created in, "." to itself |
| Tmpfs.UnlinkIff | api/src/vfs/tmp.rs:408-423 | exact errors; a file can always be unlinked, a directory if and only if it has no more other entries than it has lost of "." and ".."; only that name goes, and a failure changes nothing |
| Tmpfs.UnlinkEmptyIff | api/src/vfs/tmp.rs:415-419 | a directory that has "." and ".." is unlinked if and only if nothing else is in it, and otherwise the answer is ENOTEMPTY with nothing changed |
| Tmpfs.UnlinkLosesIff | api/src/vfs/tmp.rs:415-419 | a directory goes with something in it if and only if that is one entry or two, and no more than the dot entries it has lost |
| Tmpfs.RunUnlinkIff | api/src/vfs/tmp.rs:366-459 | in every run whose steps take no dot entry from a directory that stays, a directory is unlinked if and only if nothing but "." and ".." is in it |
| Tmpfs.UnlinkLosesFile | api/src/vfs/tmp.rs:408-459 | a run in which a directory is renamed to itself, a file is created in it, and unlinking the directory succeeds |
| Tmpfs.RenameIff | api/src/vfs/tmp.rs:426-449 | exact errors of rename: ENOENT also when a probe loses the very name to be moved, ENOTDIR also after the name was taken out |
| Tmpfs.RenameDotDotIff | api/src/vfs/tmp.rs:426-449 | a rename to a new name moves the directory, and ".." leads where it led before: to the new parent if and only if it did so already |
| Tmpfs.DotDotStale | api/src/vfs/tmp.rs:426-449 | a run after which ".." of a renamed directory leads to its old parent |
| TmpfsCode.MemoryFs.ReleaseInode | api/src/vfs/tmp.rs:96-103 | the count is lowered, and at zero with no other holder the slot is vacated |
| TmpfsCode.MemoryFs.DropRef | api/src/vfs/tmp.rs:210-214 | no count goes below zero and no vacant slot is looked up |
| TmpfsCode.MemoryFs.NewInode | api/src/vfs/tmp.rs:131-177 | a vacant slot is filled and a directory gets its two entries, with exact counts |
| TmpfsCode.MemoryFs.ClearEntries | api/src/vfs/tmp.rs:454-456 | dropping a directory's entries in any order removes exactly those entries and keeps every count exact |
| TmpfsCode.MemoryFs.DropMemoryNode | api/src/vfs/tmp.rs:452-459 | clearing entry by entry and releasing reaches the state that recounting gives |
| TmpfsCode.MemoryFs.LookupNode | api/src/vfs/tmp.rs:366-374 | lookup adds one live node on the inode the name has |
| TmpfsCode.MemoryFs.CreateNode | api/src/vfs/tmp.rs:376-391 | incremental counting in create equals recounting |
| TmpfsCode.MemoryFs.LinkNode | api/src/vfs/tmp.rs:393-406 | incremental counting in link equals recounting |
| TmpfsCode.MemoryFs.UnlinkName | api/src/vfs/tmp.rs:408-423 | incremental counting in unlink equals recounting, with the same errors |
| TmpfsCode.MemoryFs.MoveEntry | api/src/vfs/tmp.rs:435-448 | moving a reference and dropping the displaced one equals recounting |
| TmpfsCode.MemoryFs.RenameName | api/src/vfs/tmp.rs:426-449 | rename, with its temporary nodes, equals the recounting description |
| FutexQueue.WakeCut | core/src/futex.rs:78-90 | up to a cut all matching entries are woken and the rest kept in order, after it nothing is touched; exactly min(count, matching) are woken |
| FutexQueue.WakeSplits | core/src/futex.rs:78-90 | every entry is woken or kept, exactly once |
| FutexQueue.WokenIff | core/src/futex.rs:78-90 | an entry is woken if and only if it matches and fewer than the count before it do |
| FutexQueue.MatchesIff | core/src/futex.rs:78-90 | a bitset meets a mask if and only if some single bit is in both |
| FutexQueue.RequeueOrder | api/src/syscall/sync/futex.rs:96-116 | in terms of the source queue: all matching entries up to a cut are woken, what is left keeps its order, and its first entries go in order to the target's tail, only if the wake quota was filled; also when both queues are one |
| FutexQueue.RequeueCuts | api/src/syscall/sync/futex.rs:96-116 | when every entry can be woken the queue is cut in three consecutive parts, woken, moved and kept, of exactly the sizes asked for or left; also on one queue |
| FutexQueue.RequeueConserves | api/src/syscall/sync/futex.rs:96-116 | every entry of both queues is woken, moved or kept exactly once |
| FutexQueue.WaitQueue.WaitIf | core/src/futex.rs:48-74 | the waiter is queued exactly if the condition held |
| FutexQueue.WaitQueue.WakeUp | core/src/futex.rs:78-90 | the in-place scan keeps and wakes what the description says |
| FutexQueue.WaitQueue.MoveTo | core/src/futex.rs:98-109 | drain and append, also onto the same queue |
| FutexQueue.SysRequeue | api/src/syscall/sync/futex.rs:95-118 | exact conditions for each error, an unreadable word included; nothing moves if the source key has no futex; otherwise the described queues and count |
| Futex.RunReachable | core/src/futex.rs:48-246 | in every run of waits, wakes, requeues, timeouts, guard drops, handle drops and sweeps, each blocked waiter has exactly one entry in exactly one queue (or in the vector a requeue holds between its two locks), and looking up the key it is queued under, or is being moved to, finds that queue |
| Futex.NextInv | core/src/futex.rs:199-246 | every step keeps the queue and table invariants |
| Futex.WakeKeeps | core/src/futex.rs:78-90 | waking removes the entries of no waiter that stays blocked |
| Futex.WakeUnblocks | core/src/futex.rs:78-90 | a wake unblocks exactly the tasks that have an entry it reaches, stale entries included |
| Futex.WakeExactIff | core/src/futex.rs:48-90 | a wake unblocks as many tasks as it counts if and only if the entries it takes belong to different tasks that are all blocked |
| Futex.StaleAbsorbs | core/src/futex.rs:48-90 | a run in which a wake of one takes the entry of a timed-out wait and leaves a blocked task asleep |
| Futex.RequeueSteps | core/src/futex.rs:98-109 | the wake, drain and extend steps of a requeue in a row do to all queues what the description of requeue on two queues says |
| Futex.ShiftLocated | core/src/futex.rs:98-109 | moving a prefix to another queue loses no blocked waiter |
| Futex.AcquireFinds | core/src/task.rs:294-346 | fetching a table, with the periodic sweep, hides no entry from any lookup |
| Futex.DropGuardInv | core/src/futex.rs:240-245 | a guard drop keeps the invariants: it discards no entry that another guard holds or that has waiters (what it does discard is in RunNeeded and DropGuardForgets) |
| Futex.RunNeeded | core/src/futex.rs:240-245 | in every state of every run a stored entry has a live guard or somebody in its queue |
| Futex.DropGuardForgets | core/src/futex.rs:240-245 | after a guard drop the key leads to the entry if another guard holds it or somebody is queued on it, and otherwise to nothing |
| Futex.LateNeededIff | core/src/futex.rs:240-245 | with the test and the drop taken apart, a run is consistent and keeps no entry in vain if and only if every drop comes while its test has the outcome it had |
| Futex.LeftBehind | core/src/futex.rs:240-245 | a run in which two guards are dropped at once and the entry stays with no guard and nobody waiting |
| Futex.RemoveLateKeeps | core/src/futex.rs:240-245 | a removal keeps tables, guards and queues consistent if and only if the guard's test would still pass at that moment |
| Futex.LateRunIff | core/src/futex.rs:240-245 | with the test and the removal of guard drops taken apart, a run is consistent in all its states if and only if every removal comes while its test still passes |
| Futex.LateReachable | core/src/futex.rs:240-245 | if every removal is timely, every blocked task is reachable throughout |
| Futex.LaterStranded | core/src/futex.rs:240-245 | a run in which an untimely removal strands nobody at once, but whoever waits through another guard afterwards |
| Futex.RemoveLateStrands | core/src/futex.rs:240-245 | a late removal strands a blocked waiter if and only if it is queued on, or in flight to, the removed entry |
| Futex.GuardDropRace | core/src/futex.rs:240-245 | a run in which that happens |
| Futex.SweepIff | core/src/task.rs:335-346 | in every run each hundredth fetch of a shared table drops exactly the other regions whose table no call holds and whose entries nobody wants, and no other step drops any |
| Futex.DropHandleBusyIff | core/src/task.rs:294-346 | after a call lets go of a table, the table is busy if and only if another call has it or an entry in it is wanted |
| Futex.FutexTables.GetOrInsertShared | core/src/task.rs:335-346 | every hundredth operation drops exactly the tables not in use, then the region's table is found or made |
| Epoll.RunNeverLoses | api/src/file/epoll.rs:75-240 | in every state of every run the ready list has no duplicates, an armed interest's flag is set exactly when it is listed, it is listed or has a waker registered, and it is listed whenever its file's events meet its mask |
| Epoll.RunNobodySleepsOver | api/src/file/epoll.rs:75-88 | in every run, while a task sleeps on the instance (it registered, called poll_events again and got EAGAIN), no enabled interest on an open file is ready |
| Epoll.RunConfigured | api/src/file/epoll.rs:171-240 | in every run the instance watches, on open files, exactly the keys that were added and not deleted, with the mask, data and flags last given for them |
| Epoll.RunEnabledIff | api/src/file/epoll.rs:200-240 | in every run an interest is disabled if and only if it is one-shot and a call has reported it |
| Epoll.OneshotOnce | api/src/file/epoll.rs:229-232 | in every run a one-shot interest is reported by at most one call, and once by that |
| Epoll.OneshotSilent | api/src/file/epoll.rs:182-240 | once a one-shot interest has been reported, no call reports anything for its key until the key is added or modified anew |
| Epoll.RunPollExact | api/src/file/epoll.rs:171-247 | after any run, a call with slots enough and no changes meanwhile reports exactly what was last asked for on open files that are ready for the mask given, save one-shot interests reported before |
| Epoll.SleepsIff | api/src/file/epoll.rs:200-247 | a task that registers and calls with slots enough, with no changes meanwhile, gets no report if and only if nothing is due, and then sleeps beside all that did |
| Epoll.PollEmpties | api/src/file/epoll.rs:200-247 | a call with room that reports nothing has gone through the whole list: what is listed afterwards was listed meanwhile, and that has woken every waiter |
| Epoll.WakeListed | api/src/file/epoll.rs:75-88 | waking lists an armed interest, and never twice |
| Epoll.RepollInv | api/src/file/epoll.rs:143-169 | however often any files change before and after the registration, a repolled interest ends up listed or waiting, and listed if ready |
| Epoll.InstallInv | api/src/file/epoll.rs:171-189 | adding or replacing an interest loses no readiness |
| Epoll.PollLoopInv | api/src/file/epoll.rs:200-247 | poll_events keeps the invariant whatever files do before and within its rounds, at any point of a round, and reports at most the slots given |
| Epoll.DisturbAllUnlisted | api/src/file/epoll.rs:211-237 | between taking an interest off the list and clearing its flag any changes may come, with wakers that find the flag set and do nothing: all is well but for that interest |
| Epoll.ReportedListedIff | api/src/file/epoll.rs:224-239 | a reported level-triggered interest is listed again at once, whatever its file does, without waking anybody; an edge-triggered one is listed if and only if its file is still ready, and otherwise has its waker registered |
| Epoll.PollExact | api/src/file/epoll.rs:200-247 | with slots enough and no changes meanwhile, a call reports exactly the enabled interests on open files that are ready: an edge-triggered one again if and only if its file is still ready, new edge or not |
| Epoll.PollCurrent | api/src/file/epoll.rs:113-131 | without changes meanwhile, every report has its file's events as they are, and the data given |
| Epoll.AskedOnlyIff | api/src/file/epoll.rs:113-131 | a report has no event that was not asked for if and only if the file has none |
| Epoll.UnaskedReported | api/src/file/epoll.rs:113-131 | a run in which an interest that asked for one event is reported with two |
| Epoll.EdgeRepeats | api/src/file/epoll.rs:200-247 | a run in which an edge-triggered interest is reported twice although its file never changes |
| Epoll.MeetsIff | api/src/file/epoll.rs:114-116 | an interest is ready if and only if some single event is both in the file's events and in its mask |
| Epoll.PollReports | api/src/file/epoll.rs:200-247 | one call reports distinct interests that were listed when it began, with events that meet their masks and their own data |
| Epoll.PollAdvances | api/src/file/epoll.rs:204-240 | within one call a listed interest of any kind whose file stays ready is reported or moves up by at least the number of slots, whatever other files do meanwhile |
| Epoll.Fair | api/src/file/epoll.rs:200-247 | in any run of steps that leave it alone and its file ready, a listed interest of any kind at position p is reported by one of the calls once their slots together exceed p: with n listed and m slots each, within ceil(n/m) calls |
| Epoll.Instance.WakeByRef | api/src/file/epoll.rs:75-88 | the flag test, the push and the wake-up of waiters in place |
| Epoll.Instance.RepollInterest | api/src/file/epoll.rs:143-169 | look, register, look again, in place |
| Epoll.Instance.AddInterest | api/src/file/epoll.rs:171-180 | exact errors, and the described state |
| Epoll.Instance.ModifyInterest | api/src/file/epoll.rs:182-189 | exact errors, and the described state |
| Epoll.Instance.DeleteInterest | api/src/file/epoll.rs:191-198 | exact errors, and the described state |
| Epoll.Instance.PollFirst | api/src/file/epoll.rs:208-239 | one round of the loop, in place, the one-shot branch included |
| Epoll.Instance.PollReady | api/src/file/epoll.rs:200-247 | the loop returns the described reports, and EAGAIN for none |
| Shm.RunAgrees | core/src/shm.rs:250-367 | in all states of a run a process maps a segment to an address exactly when the segment's attach map has a range for it starting there (so no process maps a removed segment), if and only if every attach of the run maps its pages at an address the process does not have yet |
| Shm.RunMaps | core/src/shm.rs:150-367 | after any run at all both directions of every two-way map are inverse, keys lead to segments, the attach counter is the attach count modulo its width, and every attached range covers its segment with less than a page to spare |
| Shm.PagesCover | api/src/syscall/ipc/shm.rs:44-47 | the pages cover the size with less than one page to spare; there are none only for size zero |
| Shm.RunMarked | api/src/syscall/ipc/shm.rs:175-176 | in every run a segment is marked for removal if and only if IPC_RMID was called for it while it was there |
| Shm.RunRemovedIff | core/src/shm.rs:345-367 | in every run a segment goes if and only if it is marked and the step, a detach or an exit, detaches the last process; no key leads to it any more |
| Shm.MarkedStays | api/src/syscall/ipc/shm.rs:160-182 | a run in which a segment that nobody has attached stays after IPC_RMID, and its key still leads to it |
| Shm.NextStamps | core/src/shm.rs:118-165 | a segment's last-operation stamp is the process that last got, attached or detached it |
| Shm.FailedMapping | api/src/syscall/ipc/shm.rs:125-155 | a run in which a failed mapping breaks the agreement, and after which the process's exit trips the detach assertion |
| Shm.FailedMapTrips | api/src/syscall/ipc/shm.rs:125-158 | after an attach from a consistent state, the process's exit trips the detach assertion if and only if the mapping had failed |
| Shm.SecondAttachPanics | api/src/syscall/ipc/shm.rs:89-113 | a second attach panics whatever area is found, until the process has detached; then if and only if the segment went with that detach |
| Shm.AttachPanics | api/src/syscall/ipc/shm.rs:89-113 | a run to a second attach that panics; an unknown identifier panics from the beginning |
| Shm.BiInsertOk | core/src/shm.rs:195-202 | inserting keeps the directions inverse and replaces only what had the key or the value |
| Shm.BiRemoveValueOk | core/src/shm.rs:227-234 | removing by value keeps the directions inverse and removes only that pair |
| Shm.BiRemoveKeyOk | core/src/shm.rs:217-224 | removing by key keeps the directions inverse and removes only that pair |
| Shm.ShmgetInv | api/src/syscall/ipc/shm.rs:43-87 | shmget keeps all records consistent |
| Shm.ShmgetAgain | api/src/syscall/ipc/shm.rs:63-87 | the same key, size and mode give the same segment |
| Shm.ShmgetIff | api/src/syscall/ipc/shm.rs:43-87 | EINVAL if and only if the size is zero or the key is taken with another size or mode; otherwise the key leads to the segment returned, which has that size and mode, and nothing else changes |
| Shm.ShmatIff | api/src/syscall/ipc/shm.rs:89-158 | exact conditions for a panic and for ENOMEM; otherwise exactly that attachment is new, with all of the segment's pages |
| Shm.ShmdtIff | api/src/syscall/ipc/shm.rs:199-234 | while the records agree, EINVAL if and only if the process has nothing at the address; otherwise, if the pages can be unmapped, exactly that attachment goes |
| Shm.ShmatAgrees | api/src/syscall/ipc/shm.rs:89-158 | attaching keeps the records in agreement if and only if the mapping succeeded and the address is new to the process |
| Shm.ShmdtInv | api/src/syscall/ipc/shm.rs:199-234 | detaching keeps all records consistent, also when unmapping fails |
| Shm.AttachThenDetach | api/src/syscall/ipc/shm.rs:89-234 | attach then detach restores every map, except the last-operation stamp and a segment waiting for removal |
| Shm.ExitEffect | core/src/shm.rs:354-367 | while the records agree, process exit does not trip the detach assertion, detaches the process everywhere, leaves every other process's ranges and addresses unchanged, and removes exactly the marked segments whose last attachment it was |
| Shm.BiBTreeMap.Insert | core/src/shm.rs:195-202 | the two in-place insertions and removals |
| Shm.BiBTreeMap.RemoveByKey | core/src/shm.rs:217-224 | the pair is removed from both directions and the value returned |
| Shm.BiBTreeMap.RemoveByValue | core/src/shm.rs:227-234 | the pair is removed from both directions and the key returned |
| Shm.ShmManager.ClearProcShm | core/src/shm.rs:354-367 | the exit loop, in any order, reaches the described state, or trips the detach assertion exactly when a mapped segment has no range for the process |
| Shm.ShmManager.SysShmget | api/src/syscall/ipc/shm.rs:43-87 | the described state and result |
| Shm.ShmManager.SysShmat | api/src/syscall/ipc/shm.rs:89-158 | the described state and result, panics included |
| Shm.ShmManager.SysShmdt | api/src/syscall/ipc/shm.rs:199-234 | the described state and result, a failing unmap included |
| Shm.ShmManager.SysRmid | api/src/syscall/ipc/shm.rs:160-182 | the segment is marked; EINVAL if and only if there is none |
| Alarm.PopMatches | core/src/time.rs:242-252 | in every run of timely pushes (the deadline is still ahead when pushed) there is an entry to pop and it has the deadline looked up |
| Alarm.PopMatchesIff | core/src/time.rs:242-252 | in every run, whatever is pushed whenever, there is an entry to pop, and it has the deadline looked up if and only if no earlier deadline was pushed since the look |
| Alarm.SleepsUntilEarliest | core/src/time.rs:227-266 | while asleep with no notification pending, the wake-up time is the heap's minimum, or the heap is empty |
| Alarm.SleeperMovesIff | core/src/time.rs:227-266 | a sleeper goes on if and only if it has been notified or its deadline has come |
| Alarm.WaitsIff | core/src/time.rs:227-266 | in every run, with no notification pending, the alarm task waits if and only if it sleeps and no deadline has come; a notification on its way can be delivered and then it goes on |
| Alarm.PopNotEarly | core/src/time.rs:242-252 | in every run nothing is popped before its deadline has come |
| Alarm.PushInv | core/src/time.rs:105-119 | a push of any deadline keeps the sleeper's invariant, because it owes a notification if and only if it becomes the minimum |
| Alarm.StalePush | core/src/time.rs:105-119 | a run in which a deadline computed early and pushed late makes the pop disagree |
| Timers.TimeConserved | core/src/time.rs:169-191 | user, kernel and unattributed time add up to the clock, over any sequence of polls and state changes |
| Timers.TimesExact | core/src/time.rs:169-191 | user and kernel time are exactly the time that passed in those modes, told from mode changes and clock readings alone |
| Timers.SetOnly | core/src/time.rs:195-209 | setting a timer sets that timer, and neither the others nor the times |
| Timers.NthSignalNotEarly | core/src/time.rs:91-103 | the n-th signal never comes before initial + (n-1) * interval of the timer's own time; a zero interval gives at most one |
| Timers.SilentIff | core/src/time.rs:91-103 | an armed timer is silent if and only if its own time has not used up what it had left |
| Timers.NextSignalIff | core/src/time.rs:91-103 | after a signal the next one comes if and only if the timer's own time has advanced by the interval, and none if that is zero |
| Timers.LatestAlarm | core/src/time.rs:91-119 | after any run, an armed real timer's last alarm is the one its last arming (a set, or a fire that starts it anew) pushed, for the reading and amount of then; it is addressed to the timer's own thread if and only if that arming ran on that thread |
| Timers.AlarmFires | core/src/time.rs:91-119 | a poll at or after the real timer's last alarm makes it fire, for clocks a fixed offset apart |
| Timers.BlockedGetsNone | core/src/time.rs:105-119 | while only the alarm task polls a thread, no alarm that is pushed is addressed to the thread |
| Timers.AlarmAstray | core/src/time.rs:105-119 | a run in which the alarm task fires a periodic timer and the next alarm is addressed to the alarm task |
| Timers.TimeManager.UpdateTimer | core/src/time.rs:91-119 | the timer in place, whether it fired, and the alarm it pushes, addressed to the running task |
| Timers.TimeManager.PollTimers | core/src/time.rs:169-186 | the described times, timers, signals and addressed alarms |
| Timers.TimeManager.SetITimer | core/src/time.rs:195-209 | the timer is replaced, the old one returned, and the new one's alarm pushed, addressed to the running task |
| Getdents.RoundTripLE | api/src/syscall/fs/ctl.rs:136-142 | a number that fits its field is read back from it |
| Getdents.EncodesDecodes | api/src/syscall/fs/ctl.rs:123-151 | a record decodes to its entry, whatever its padding holds |
| Getdents.PackedDecodes | api/src/syscall/fs/ctl.rs:123-151 | packed records decode to the list of entries if and only if all entries fit: numbers in their fields, records below 65536 bytes, names without NUL |
| Getdents.LengthFieldExact | api/src/syscall/fs/ctl.rs:126-139 | the length field is exact if and only if the record is shorter than 65536 bytes |
| Getdents.LongName | api/src/syscall/fs/ctl.rs:126-139 | a name without NUL whose record length the field does not hold |
| Getdents.WritesEncode | api/src/syscall/fs/ctl.rs:133-147 | header, name and NUL stay inside the record and leave it encoded, nothing else changes |
| Getdents.CallDecodes | api/src/syscall/fs/ctl.rs:164-180 | the bytes of a call decode to the entries it covered if and only if these fit |
| Getdents.RecLenBounds | api/src/syscall/fs/ctl.rs:126-129 | a record's length is the least multiple of the alignment that holds fields, name and NUL |
| Getdents.CallIff | api/src/syscall/fs/ctl.rs:154-181 | exactly when a call answers EINVAL, EFAULT or a lookup error; otherwise it returns as many records as fit |
| Getdents.CallRecords | core/src/vfs/dir.rs:143-165 | the bytes of a call read as the children it covered, each with its own inode number, kind and name and the offset of the child after it, if and only if these fit |
| Getdents.SessionRecords | api/src/syscall/fs/ctl.rs:154-181 | the bytes of a session that loses nothing read as the children it went past, if and only if these fit |
| Getdents.ResumeAfter | core/src/vfs/dir.rs:149-165 | the offset in a record is where to go on: a session from there that loses nothing reads as the children after the record's own, if and only if these fit |
| Getdents.SessionConsecutive | api/src/syscall/fs/ctl.rs:154-181 | whatever the buffer sizes, successive calls return consecutive entries, none skipped or repeated, if and only if none of the calls loses entries; if children can be looked up and buffers written none does |
| Getdents.SessionCompletes | api/src/syscall/fs/ctl.rs:154-181 | with buffers that hold any one entry, as many calls as entries return the whole listing if and only if every child can be looked up and no call loses entries to an unwritable buffer; further calls return 0, or an error |
| Getdents.SessionDecodes | api/src/syscall/fs/ctl.rs:154-181 | the bytes of all calls, one after another, decode to the entries returned if and only if these fit |
| Getdents.LosesIff | api/src/syscall/fs/ctl.rs:164-178 | a call returns every entry it moves the offset past, if and only if neither of two things happens: some child from the offset on cannot be looked up and the records before the first such child, one at least, fit the buffer together; or the first record fits and the buffer cannot be written |
| Getdents.ReachIff | api/src/syscall/fs/ctl.rs:164-172 | a call gets as far as the first child that cannot be looked up if and only if all records before it fit the buffer |
| Getdents.LosesEntries | core/src/vfs/dir.rs:143-165 | a directory with one child that cannot be looked up and a 48-byte buffer, where a call fails and loses the first two entries |
| Getdents.LosesUnwritten | api/src/syscall/fs/ctl.rs:164-178 | an empty directory whose two entries are lost to a buffer that cannot be written |
| Getdents.Listing | core/src/vfs/dir.rs:143-162 | the enumeration is the directory itself, its parent, and then every child by name in order, with what looking it up gives |
| Getdents.DirBuffer.WriteEntry | api/src/syscall/fs/ctl.rs:123-151 | a record is written exactly if it fits, within its bounds |
| Getdents.Directory.SysGetdents64 | api/src/syscall/fs/ctl.rs:154-181 | the result, an unwritable buffer included, the offset, and bytes that read as the children covered if and only if these fit |
| Pipe.RunConserves | api/src/file/pipe.rs:75-181 | for every interleaving, bytes read followed by bytes buffered are the bytes accepted, each call's bytes are accepted in order, and occupancy never exceeds capacity |
| Pipe.EofIsFinal | api/src/file/pipe.rs:132-139 | end of file is reported only when the writer is gone and all accepted bytes were read, and nothing comes after |
| Pipe.RunEnds | api/src/file/pipe.rs:75-181 | in every run an end is open if and only if nobody has closed it |
| Pipe.ReadIff | api/src/file/pipe.rs:121-140 | in every run a read gets the bytes accepted next, as many as it wants or there are; it reports end of file if and only if all accepted bytes were read and the writer was closed, and otherwise asks to be called again |
| Pipe.WriteIff | api/src/file/pipe.rs:156-180 | in every run a write fails if and only if the reader was closed; it is done if and only if it stores something and then all its source is accepted or it does not block; it returns how much of the source was accepted over all its polls |
| Pipe.ResizeIff | api/src/file/pipe.rs:83-98 | in every run a resize succeeds if and only if the bytes in the ring fit the new size; then that is the capacity, and otherwise nothing changes |
| Pipe.EofLate | api/src/file/pipe.rs:122-139 | with the look at the ring and the closed test taken apart, an end of file leaves bytes unread if and only if more were accepted in between than other readers took; without other readers, if and only if a write in between stored something |
| Pipe.EofRace | api/src/file/pipe.rs:122-139 | a run in which that happens |
| Pipe.UnrollDrop | api/src/file/pipe.rs:123-131 | advancing the read index drops the oldest bytes |
| Pipe.FilledExtends | api/src/file/pipe.rs:162-171 | filling the two vacant slices appends to the contents |
| Pipe.PageRound | api/src/file/pipe.rs:84-84 | the smallest positive multiple of the page size that is large enough |
| Pipe.Ring.TakeUpTo | api/src/file/pipe.rs:121-131 | the oldest min(n, occupied) bytes, in order |
| Pipe.Ring.PutUpTo | api/src/file/pipe.rs:162-171 | the first min(n, vacant) bytes are appended |
| Pipe.Ring.Resize | api/src/file/pipe.rs:83-98 | contents and order are kept, and the capacity changes exactly on success |
| Pipe.PipeShared.ReadClosure | api/src/file/pipe.rs:121-140 | one poll of a read |
| Pipe.PipeShared.WriteClosure | api/src/file/pipe.rs:156-180 | one poll of a write |
| Pipe.PipeShared.ResizeRing | api/src/file/pipe.rs:83-98 | the described capacity and result |
| IoVec.FlatSplit | api/src/io.rs:91-102 | a buffer's addresses follow those of the buffers before it in the flat buffer |
| IoVec.FlatWindow | api/src/io.rs:113-123 | a stretch of one buffer is the same stretch of the flat buffer |
| IoVec.ScatterThenGather | api/src/io.rs:105-157 | what is written through the cursor is read back, if the buffers do not overlap |
| IoVec.ScatterJoin | api/src/io.rs:135-157 | storing piece by piece is storing the whole |
| IoVec.ReadsJoin | api/src/io.rs:105-127 | two reads in a row get the same bytes as one read for both |
| IoVec.NewCursor | api/src/io.rs:23-36 | exact conditions for success and for a fault, by the first descriptor that cannot be read or has a negative length; a cursor at position 0 |
| IoVec.Cursor.SkipEmpty | api/src/io.rs:92-102 | skipping empty buffers does not move in the flat buffer, and ends at bytes or at the end |
| IoVec.Cursor.ReadInto | api/src/io.rs:105-127 | exactly min(request, remaining) bytes from the flat position, failing if and only if one is not mapped |
| IoVec.Cursor.WriteFrom | api/src/io.rs:135-157 | exactly min(request, remaining) bytes to the flat position, failing if and only if one is not mapped; what a failing call stored is a prefix, however much of the failing piece was copied |
| IoVec.Cursor.Remaining | api/src/io.rs:129-133 | total minus transferred, modulo the counter's width, after any calls |
| LineDiscipline.RunRefines | api/src/terminal/ldisc.rs:78-154 | for any interleaving of rounds and reads and any ring size, what was read, then the ring, then the rest of a released line, is what a reader without a ring, which keeps released lines and stores graphic characters only, would have released for the characters consumed; no character is lost |
| LineDiscipline.KeepIff | api/src/terminal/ldisc.rs:86-151 | compared with emptying released lines, the output is the same if and only if no line ends while an earlier one is still in the buffer, and otherwise longer; the emptied line is always the tail of the kept one |
| LineDiscipline.StoreIff | api/src/terminal/ldisc.rs:127-151 | compared with storing every character that is not special, the output is the same if and only if no line ends while a character is missing from it, and otherwise shorter |
| LineDiscipline.RunCanonicalIff | api/src/terminal/ldisc.rs:78-154 | both conditions, for what any run has emitted |
| LineDiscipline.RunCanonical | api/src/terminal/ldisc.rs:78-154 | where both conditions hold for emptied lines, a run emits what both changes together would emit |
| LineDiscipline.CancelOut | api/src/terminal/ldisc.rs:127-151 | an input on which the two departures cancel out, so that the last condition is not necessary |
| LineDiscipline.LineTwice | api/src/terminal/ldisc.rs:88-101 | a run that delivers the first of two lines again with the second |
| LineDiscipline.BlankDropped | api/src/terminal/ldisc.rs:145-150 | a run that does not deliver the blank of a line |
| LineDiscipline.ReadThrough | api/src/terminal/ldisc.rs:78-154 | for every input and ring size there is a run that delivers all that is released for it |
| LineDiscipline.ReadOn | api/src/terminal/ldisc.rs:78-154 | every run, from any state it is in, goes on to one where all that was read from the device is consumed and all that is released for it is delivered |
| LineDiscipline.PlainMeans | api/src/terminal/ldisc.rs:107-114 | IGNCR drops carriage returns and nothing else; without it ICRNL turns each into a newline in its place; without both the input is unchanged |
| LineDiscipline.KillForgets | api/src/terminal/ldisc.rs:128-131 | what comes after a kill character is edited and released as if it were the beginning of the input |
| LineDiscipline.EraseUndoes | api/src/terminal/ldisc.rs:132-135 | an erase takes back the graphic character before it, whatever follows, and passes over one that was not stored |
| LineDiscipline.StoredIff | api/src/terminal/ldisc.rs:147-150 | a character that neither edits nor ends the line is stored if and only if it is one from '!' to '~' |
| LineDiscipline.LineEnds | api/src/terminal/ldisc.rs:137-145 | a line ends with a newline, VEOL or VEOL2, released with it, or with VEOF, which is not; an empty line with VEOF releases nothing |
| LineDiscipline.RunRaw | api/src/terminal/ldisc.rs:104-125 | in non-canonical mode, delivered plus queued bytes are the consumed input after carriage-return handling |
| LineDiscipline.RoundShape | api/src/terminal/ldisc.rs:88-151 | no character is consumed while a released line is partly delivered, the offset stays within the line, and each round makes progress |
| LineDiscipline.PollAll | api/src/terminal/ldisc.rs:88-151 | the poll loop ends, on unread input and undelivered line, at a state where no round is possible |
| LineDiscipline.PollIsRun | api/src/terminal/ldisc.rs:78-154 | a poll is a stretch of a run: the input it fetches if it has none left, and then rounds until none is possible |
| LineDiscipline.AfterDrain | api/src/terminal/ldisc.rs:78-154 | after a drain and the clearing of the line, readers get exactly what a new reader would release for the input not consumed yet |
| LineDiscipline.DrainFailsIff | api/src/terminal/ldisc.rs:79-90 | in every state of every run, draining breaks the next poll if and only if a released line is partly delivered; seen from outside, if readers and the ring have some but not all of what was released last |
| LineDiscipline.OverfullIsPartial | api/src/terminal/ldisc.rs:88-100 | a line is still to be delivered whenever more was released than was read and fits the ring |
| LineDiscipline.DrainFails | api/src/terminal/ldisc.rs:79-100 | a run after which draining breaks the next poll, both before and after a reader has taken what the ring held |
| LineDiscipline.InputReader.Consume | api/src/terminal/ldisc.rs:104-150 | one character, in place; the push has room |
| LineDiscipline.InputReader.Deliver | api/src/terminal/ldisc.rs:89-100 | what fits of a released line, in place |
| LineDiscipline.InputReader.Poll | api/src/terminal/ldisc.rs:78-154 | the poll panics if and only if the line was cleared while partly delivered; otherwise it reaches the described state and reports whether anything was sent |
| LineDiscipline.InputReader.DrainInput | api/src/terminal/ldisc.rs:300-303 | the ring is emptied, a clearing of the line is requested, and nothing else changes |
| LineDiscipline.InputReader.DrainThenPoll | api/src/terminal/ldisc.rs:79-100 | a drain and the next poll: that panics if and only if the drained reader's slice fails, and otherwise polls the drained reader |
| LineDiscipline.InputReader.ReadMore | api/src/terminal/ldisc.rs:355-368 | a read's bytes are consecutive and it ends exactly at the minimum count |

## Left out

- System call dispatch, sockets, address spaces, signals, devices and procfs: thin, or their state lives in crates that are not part of this model.
- tmpfs: page-cache contents, metadata updates, `read_dir`, deadlocks from a directory linked into itself, and temporaries held by other threads in the middle of an operation.
- tmpfs: the VFS layer's node cache is reduced to what happens to the destination node that `rename` looks up.
- Futex: `owner_dead` and the robust list, process exit, the derivation of keys from address spaces, and reuse of a freed region's address.
- Epoll: the lock that `poll_events` holds while `repoll` pushes.
- Futex.RunReachable: takes the test and the removal in a guard's drop as one step, although they are two lock sections; LateRunIff, LateReachable, LateNeededIff, RemoveLateStrands, GuardDropRace and LeftBehind give the other case. The same holds for Futex.NextInv, Futex.DropGuardInv and Futex.RunNeeded.
- Shm: IPC_SET (it overwrites the attach counter), IPC_STAT, wrap-around of the identifier counter, sizes so large that rounding them up to pages overflows, and interleavings inside one system call.
- Timers: the width of the nanosecond counters.
- Getdents: alignment of the record pointer, and how much of an unwritable buffer is written before the fault.
- Pipe.EofIsFinal: takes the look at the ring and the closed test as one step; EofLate and EofRace give the other case.
- Pipe: faults while copying from or to user memory, SIGPIPE, and the pollers' wake-ups.
- IoVec: once accepted, the array of buffer descriptions is taken to stay readable and unchanged; `read_with` and `fill_with` are left out as easier.
- LineDiscipline: echo, signals from control characters, VTIME, the early returns of `read` for empty or too small buffers, the pass-through mode of pseudo-terminal masters, and changes of settings.
