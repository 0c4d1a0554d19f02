# A Dafny model of xv6 with an agentic scheduler

This project models the parts of the kernel and of its user programs that keep state, and
proves what they keep over whole runs. To verify it:

    dafny verify dfyconfig.toml

## What is modelled

* **The redo log** (`LogModel`, `LogProof`, `LogDurable`, `LogDisk`, `LogSteps`, `LogMkfs`): log.c as a machine with
  one disk-block write per step and a crash possible between any two steps, proved to
  refine a machine that knows no log: a commit makes all writes of a group durable at
  once. `LogDisk.Log` is the code itself on an array of numbered blocks; the sequence of
  block writes it makes is the one the crash lemmas cut at every point.
* **The buffer cache** (`CacheModel`, `CacheList`, `Bcache`): bio.c over the synchronous
  disk of memide.c, with the list relinked through prev and next.
* **The block layer of the file system** (`FsModel`, `FsWrite`, `FsTrunc`, `FileSystem`):
  bitmap, inodes with direct and indirect blocks, and the bytes of files.
* **The MLFQ+SJF scheduler and its agent** (`Sched`, `SchedProof`, `Scheduler`,
  `SchedSteps`, `SchedBurst`, `SchedStarvation`, `EmaProof`, `Agent`, `AgentResponse`): scheduler passes, timer ticks, fork, sleep, exit,
  registration and parameter updates as steps of a machine, the scheduler loop as code, and
  the rules of the tuning agent.
* **Page tables and frames** (`PtModel`, `PtFree`, `PtCopy`, `PtShrink`, `PtRights`, `PageTable`):
  four-level tables on a memory of frames, with the free list kept in the free frames.
* **Blocking** (`SleepLock`, `PipeModel`, `PipeCalls`, `Pipe`): sleep, wakeup and sleep locks at the
  granularity of spin locks, and pipes with several readers and writers.
* **The K&R allocator** (`HeapModel`, `Umalloc`) and **the shell's parser** (`ShellModel`,
  `ShellRoundTrip`, `ShellGrammar`, `ShellWords`, `ShellLexer`, `Shell`, `ShellMemory`).

Each component has a value model: functions, an invariant, and lemmas over every step and
every run. Where the source changes things in place there is also a class whose methods are
proved against that model. The methods of `Bcache.Cache` and `Scheduler.Table` that model
one locked section or one pass are steps of the machine. `LogDisk.Log` is tied to the
machine by the block writes it makes, which `LogSteps.CommitIsRun` shows to be the machine's
steps one by one; `BeginOp`, `LogWrite` and `EndOp` state their effect
on its own fields. The file system, the page tables and the allocator have no machine:
their methods are proved against functions and relations on values.

A kernel panic is an outcome of the method, not a precondition. Sleeping is a state of the
machine; a method whose C original would go to sleep reports that it would.

## Where the code does not do what one might expect

* `LogProof.LogWritePanics`: an operation that stays within its reservation can still be
  stopped by log_write, and exactly when the group has as many blocks as the header has
  entries, or the log has slots if they are fewer. The test comes before the scan for the
  block, so it hits blocks that are logged already too. `LogMkfs.MkfsLogPanics` reaches it on
  the log that mkfs makes, which has LOGSIZE blocks with the header among them, and
  `LogMkfs.AbsorbedWritePanics` on a log with any larger number of slots. A new block is
  never stopped on a log with LOGSIZE slots besides the header.
* `SchedStarvation.StarvesFromBoot`: the priority boost sets every waiting time to zero, so a
  RUNNABLE process can wait for ever, and does in runs from boot with the parameters of pinit
  and two processes. `SchedStarvation.EndlessIff` says when, for a process that computes in
  short bursts against one that waits: if and only if the next boost comes before aging has
  closed the gap between the two estimates. The bound of `SchedProof.MlfqBoundedWaiting` is
  for stretches without a boost.
* pipewrite can return without waking the readers, when the process was killed or there is
  no reading end. `PipeModel.ReadersKept` shows that no reader is asleep then: kill only
  leaves a signal and wakes, a process is marked killed only by a fault in user mode, and a
  reader that sleeps has a descriptor, which keeps the reading end open.
* kalloc panics when no frame is left; it never returns 0. The error paths of its callers in
  vm.c are therefore never taken.
* In sh.c `>` and `>>` give the same command: `ShellGrammar.AppendIsWrite`.
* The boost, aging and selection code of proc.c is followed where README.md and
  PROJECT_BRIEF.md of the system describe it differently.

## Model

| member | source | states |
|---|---|---|
| `LogModel.InstalledHome` | log.c:69-82 | what install_trans leaves in every home block: the slot that the header lists for it, or what it had |
| `LogModel.CrashDuringInstall` | log.c:69-82 | a crash after any number of installs leaves a disk that still holds the committed contents, and a second recovery gives the same |
| `LogModel.RecoveredIsDurable` | log.c:115-122 | recovery leaves every home block with its durable contents and an empty header |
| `LogProof.StepRefines` | log.c:126-231 | every step of begin_op, log_write, end_op, commit, crash and recovery keeps the refinement to the machine without a log |
| `LogProof.RunRefines` | log.c:126-231 | so does every run |
| `LogProof.CrashSafety` | log.c:190-200 | stop any run from boot anywhere: recovery gives exactly the disk after a whole number of commit groups, and an empty header |
| `LogDurable.EndedIsDurable` | log.c:145-172 | whenever the last operation of a run without a crash has ended and begin_op would let the next one in, the home blocks on disk hold every write that any operation has made, and nothing is pending |
| `LogDurable.EndedIsSettled` | log.c:145-172 | with crashes, nothing is pending then either, and every operation that made a write is in exactly one committed or one lost group |
| `LogDurable.CarriedThrough` | log.c:145-200 | from every reachable state without operations the commit or recovery under way can be finished in a number of steps that its phase tells, and begin_op then lets operations in |
| `LogDurable.GroupsGrow` | log.c:190-200 | what is committed stays committed, and nothing is lost without a crash |
| `LogDurable.DueStep` | log.c:145-231 | every step keeps: pending writes are listed in the header, and the list outlives its operations only on its way into the log |
| `LogProof.HomeWaitsForHeader` | log.c:190-200 | until a group's header is written no home block on disk differs from the last durable state |
| `LogProof.HomeWrittenOnlyByInstall` | log.c:69-82 | no step but an install changes a home block on disk |
| `LogProof.InstallWritesDurable` | log.c:69-82 | an install writes a block the header lists, with its durable contents |
| `LogProof.OperationsAllOrNone` | log.c:126-172 | in every run each committed group, each group lost in a crash and the one being gathered has all writes of an operation or none, and exactly one of them has those of an operation that made any |
| `LogProof.RunAtomic` | log.c:126-172 | the invariant behind it, over every run |
| `LogProof.CommitIsAtomic` | log.c:175-200 | from the start of a commit, through any crashes and repeated recoveries until an operation begins, recovery gives all new values if the header was written and all old ones if it was not |
| `LogProof.CommitWindow` | log.c:190-200 | the header write is the one step at which the durable state changes, whatever crashes before or after it |
| `LogProof.SettledStays` | log.c:115-122 | with no operation running and none to commit, installs, crashes and recoveries change nothing durable and write no header |
| `LogProof.LogSpace` | log.c:126-172 | if every operation logs at most MAXOPBLOCKS blocks: logged plus reserved blocks fit in LOGSIZE, block numbers are distinct, and a commit runs only with no operation outstanding |
| `LogProof.LogWritePanics` | log.c:211-231 | within the reservations the size test fires, for new and logged blocks alike, if and only if the group has min(LOGSIZE, slots) blocks, and never for a new block with LOGSIZE slots |
| `LogMkfs.MkfsLogPanics` | mkfs.c:25 | on the log that mkfs makes, a run from boot within the reservations reaches the panic of log_write |
| `LogMkfs.AbsorbedWritePanics` | log.c:216-225 | on a log of LOGSIZE slots or more, a run from boot within the reservations reaches the panic on a block that is logged already |
| `LogDisk.CommitCrashPoints` | log.c:190-200 | stop commit after any k of its 2n+2 block writes: recovery gives the old contents up to the log copy, the new ones from the header on |
| `LogDisk.CommitStartsReady` | log.c:190-200 | every state of the machine where a commit starts meets the hypotheses of that lemma |
| `LogSteps.CommitIsRun` | log.c:175-200 | after any k steps of a commit the machine's disk is what the code's disk shows after the first k block writes of commit |
| `LogSteps.EndStarts` | log.c:145-167 | the last end_op of a group with blocks brings the machine where that commit starts |
| `LogSteps.HeaderWords` | log.c:32-37 | word by word, what the header block holds, and that it reads back |
| `LogDisk.RecoverCrashPoints` | log.c:115-122 | stop recovery after any k of its n+1 block writes: recovering again leaves the same contents and an empty header |
| `LogDisk.CrashBeforeHeader` | log.c:175-188 | slot writes before the header change nothing durable |
| `LogDisk.HeaderWriteCommits` | log.c:101-113 | one block write of the header makes the group durable |
| `LogDisk.CrashAfterHeader` | log.c:69-82 | every prefix of the installs leaves a disk that recovers to the new contents |
| `LogDisk.SlotsPrefix` | log.c:175-188 | the disk after any prefix of write_log's writes |
| `LogDisk.InstallPrefix` | log.c:69-82 | the disk after any prefix of install_trans's writes |
| `LogDisk.Log.WriteHead` | log.c:101-113 | the header block after the loop that fills it |
| `LogDisk.Log.ReadHead` | log.c:85-96 | reads back what the header lists |
| `LogDisk.Log.WriteLog` | log.c:175-188 | makes exactly the slot writes, in order |
| `LogDisk.Log.InstallTrans` | log.c:69-82 | makes exactly the home writes, in order, and leaves the blocks unpinned |
| `LogDisk.Log.Commit` | log.c:190-200 | makes exactly the writes that the crash lemmas cut, and empties the log |
| `LogDisk.Log.RecoverFromLog` | log.c:115-122 | makes exactly the recovery writes for what the header lists |
| `LogDisk.Log.BeginOp` | log.c:125-141 | admits an operation if and only if nothing commits and its reservation fits |
| `LogDisk.Log.LogWrite` | log.c:211-231 | absorbs or appends the block and pins it; panics by the size test, before absorption, or outside an operation |
| `LogDisk.Log.EndOp` | log.c:145-172 | the last operation out commits; the panic is for a commit under way |
| `CacheModel.StepInv` | bio.c:61-141 | every locked section of the cache keeps: one buffer a block, counts of references, contents, stamps |
| `CacheModel.RunInv` | bio.c:61-141 | so does every run |
| `CacheModel.CacheCoherent` | bio.c:61-141 | after any run from binit no block is in two live buffers, a valid buffer has the last contents stored in its block, and a block in no valid buffer has them on disk |
| `CacheModel.RunLatest` | bio.c:96-116 | the contents the model calls current are the last that any holder stored |
| `CacheModel.NeverRecycled` | bio.c:78-91 | a referenced or dirty buffer keeps its block in every step |
| `CacheList.Unlinked` | bio.c:131-134 | taking a node out leaves the ring of the others |
| `CacheList.Pushed` | bio.c:134-138 | putting a node after the head gives the longer ring |
| `CacheList.ReleasedFirst` | bio.c:130-138 | moving the released buffer to the front keeps the ring ordered by last release |
| `CacheList.FirstFromBack` | bio.c:81-91 | the first idle buffer from the back is the least recently released one |
| `Bcache.Cache.constructor` | bio.c:38-56 | all thirty buffers on one ring, none live |
| `Bcache.Cache.Bget` | bio.c:61-93 | the buffer with the block, or else the least recently released idle one; the panic if and only if there is neither |
| `Bcache.Cache.Lookup` | bio.c:69-76 | finds the buffer that has the block if there is one |
| `Bcache.Cache.Recycle` | bio.c:81-91 | finds the least recently released idle buffer if there is one |
| `Bcache.Cache.Iderw` | memide.c:38-60 | writes a dirty buffer, reads one that is not valid, and its four panics |
| `Bcache.Cache.Bread` | bio.c:96-106 | gives a valid buffer unless the block is beyond the disk |
| `Bcache.Cache.Bwrite` | bio.c:109-116 | writes the buffer of the lock's holder, panics otherwise |
| `Bcache.Cache.Pin` | log.c:229 | a logged buffer is dirty |
| `Bcache.Cache.Put` | bio.c:128-140 | drops a reference; the last one moves the buffer to the front |
| `Bcache.Cache.MoveFirst` | bio.c:132-137 | the six pointer writes keep one ring ordered by release |
| `FsModel.EntryRoundTrip` | fs.c:365-370 | a word written to the indirect table reads back and no other word changes |
| `FsModel.EntryBytes` | mkfs.c:56-65 | an entry is a number exactly if its four bytes are those of the number, the lowest first |
| `FsModel.BlocksExact` | fs.c:52-89 | no block is in two places, and the data blocks marked in the bitmap are exactly those an inode refers to |
| `FsModel.GiveDirectSlots` | fs.c:354-358 | a fresh block in a direct slot changes that slot only |
| `FsModel.GiveIndirectSlots` | fs.c:361-373 | a fresh block in the indirect table changes that entry only |
| `FsModel.OwnAfterGive` | fs.c:348-376 | a fresh block in one slot keeps bitmap and ownership exact |
| `FsModel.MappedKeepsBytes` | fs.c:348-376 | bmap changes no byte of any file block that was there |
| `FsModel.MappedGrows` | fs.c:348-376 | looking up the next block gives the file one block more and leaves the others alone |
| `FsModel.ChunkWritten` | fs.c:470-476 | a chunk written into a block changes those bytes of that file only |
| `FsWrite.WriteRound` | fs.c:470-476 | one round of writei keeps what holds between rounds |
| `FsWrite.RoundTakes` | fs.c:470-476 | a round takes exactly the free blocks it needs, or there are too few for the whole write |
| `FsWrite.NeededCost` | fs.c:348-376 | what bmap takes for the next block of a file is one block, and the table with the first block beyond the direct ones |
| `FsWrite.WriteDone` | fs.c:478-483 | after the last round and the size update the file is the old one with the range replaced or extended, and every other file is unchanged |
| `FsTrunc.FreeSlot` | fs.c:389-405 | each block of the inode is still marked when its turn comes, and is then free |
| `FsTrunc.Truncated` | fs.c:383-411 | with all slots freed the file is empty, exactly its blocks are free, and the rest is intact |
| `FileSystem.FileSys.Balloc` | fs.c:52-72 | the lowest free block, marked and zeroed, one fewer free; the panic if and only if none is free |
| `FileSystem.FileSys.Bfree` | fs.c:75-89 | clears the bit, or panics if it is clear |
| `FileSystem.FileSys.Bmap` | fs.c:348-376 | the block of a file block; it adds only fresh zeroed blocks, and none where there is one; the panics if and only if the file block is out of range or fewer blocks are free than it takes |
| `FileSystem.FileSys.Readi` | fs.c:426-450 | exactly the requested slice of the file, cut at its end, and nothing else changes; the three failures |
| `FileSystem.FileSys.Writei` | fs.c:454-484 | the file's bytes become the old ones with [off, off+n) replaced or extended, all other files keep theirs, the inode on disk is the one in memory; the failures leave everything as it was; the panic if and only if fewer blocks are free than the longer file needs, its table included |
| `FileSystem.FileSys.WriteBlocks` | fs.c:470-476 | the loop of writei across direct and indirect blocks |
| `FileSystem.FileSys.Itrunc` | fs.c:383-411 | frees exactly the inode's own blocks, each once, so bfree never panics |
| `FileSystem.FileSys.FreeDirect` | fs.c:389-394 | the loop over the direct blocks |
| `FileSystem.FileSys.FreeEntries` | fs.c:399-402 | the loop over the indirect table |
| `FileSystem.FileSys.Iupdate` | fs.c:202-218 | the inode on disk becomes the one in memory |
| `SchedProof.StepInv` | proc.c:309-432 | every step keeps queue levels in 0..2, waiting times zero unless RUNNABLE, parameters in range, the agent one live process that once pinned stays in queue 0, yields at most preemptions |
| `SchedProof.RunInv` | proc.c:309-432 | so does every run |
| `SchedProof.PassInv` | proc.c:337-424 | a scheduler pass keeps it |
| `SchedProof.ExitInv` | proc.c:230-252 | exit keeps it and releases the agent's place |
| `SchedProof.RegisterInv` | sysproc.c:219-235 | registration keeps it |
| `SchedProof.PinInv` | proc.c:738-745 | pinning keeps it |
| `SchedProof.AllocInv` | proc.c:48-110 | a new process keeps it |
| `SchedProof.TickedOk` | trap.c:82-125 | a timer tick keeps queue level and estimates in range |
| `SchedProof.PassDispatches` | proc.c:371-424 | an MLFQ pass with a RUNNABLE process dispatches one, least in queue, score and slot |
| `SchedSteps.QueueMoves` | proc.c:337-345 | a process changes its queue only with a quantum used up, one down, or to 0 by a boost, by pinning or at birth; a boost moves every process in use to 0 |
| `SchedSteps.EstimatesMove` | trap.c:82-125 | its estimates change only with a quantum used up, and are 100 at birth |
| `SchedSteps.StateMoves` | proc.c:309-432 | which steps put it on the CPU, take it off and wake it |
| `SchedSteps.CountersMove` | trap.c:82-125 | a preemption is counted for each quantum used up, a yield for each time it then leaves the CPU |
| `SchedSteps.PidsMove` | proc.c:48-110 | a pid is given at birth, never twice, and kept until the process is reaped |
| `SchedSteps.AgentMoves` | sysproc.c:219-235 | the agent's place changes by registering and by the agent's exit only |
| `SchedSteps.WaitCounts` | proc.c:353-362 | in either mode a RUNNABLE process that no pass dispatches has waited as many passes as there were, until a boost |
| `SchedSteps.AlertIff` | proc.c:353-362 | a pass raises the alert if and only if no boost is due and some process has then waited more than a hundred passes |
| `SchedSteps.WaitingAlerts` | proc.c:353-362 | a process that waits through a hundred passes and one more without a boost raises it |
| `SchedSteps.ParamsReadBack` | sysproc.c:174-212 | the values the agent sends are in force, field by field |
| `SchedSteps.ParamsStay` | sysproc.c:174-212 | no other step changes them |
| `SchedBurst.RunsItsQuantum` | proc.c:410-416 | for all parameters: a process dispatched from queue 0, 1 or 2 that stays on the CPU is RUNNING until exactly q0, q1 or q2 of its ticks are used and their trap ends, and RUNNABLE then; a boost or its pinning gives it q0 more |
| `SchedBurst.QuantumEnds` | trap.c:82-125 | the last tick moves the fast estimate by the fast alpha and the slow one by the slow alpha toward the time since the dispatch, sets the variance to their distance, counts the preemption and demotes by one queue, but not from the last and not the agent |
| `SchedBurst.UntilThen` | trap.c:82-125 | the ticks before change nothing but the rest of the quantum |
| `SchedBurst.MovedIs` | trap.c:92-101 | the update moves an estimate by alpha per cent of its distance, rounded toward where it was, under the cap |
| `SchedBurst.MovedOnce` | trap.c:92-101 | which leaves one value only |
| `SchedProof.MlfqBoundedWaiting` | proc.c:353-403 | without boosts, a process that stays RUNNABLE in the first occupied queue waits fewer than 51 a + NPROC passes for aging factor a |
| `SchedProof.RrBoundedWaiting` | proc.c:371-382 | in round-robin mode it waits fewer than NPROC passes |
| `SchedStarvation.PassIff` | proc.c:337-395 | with two RUNNABLE processes, which of them a pass can dispatch, with a boost due and without |
| `SchedStarvation.EndlessIff` | proc.c:337-395 | a process that computes in bursts of t ticks, less than its quantum, wins every pass for ever against one that waits if and only if its score still leads after the m passes that lie between two boosts |
| `SchedStarvation.BoostsStarve` | proc.c:337-395 | then there are runs of any number of passes in which the other is RUNNABLE and never dispatched |
| `SchedStarvation.StarvesFromBoot` | proc.c:337-395 | with the parameters of pinit there are such runs from boot, with one process at the first estimate of 100 and the other, after two whole quanta, at 425 |
| `Scheduler.Table.Boost` | proc.c:337-345 | every process in use to queue 0 with a fresh quantum and no waiting time |
| `Scheduler.Table.Age` | proc.c:353-362 | every RUNNABLE process has waited one pass more; the alert |
| `Scheduler.Table.SelectRr` | proc.c:371-382 | the first RUNNABLE slot from rr_next on, which moves past it |
| `Scheduler.Table.ScanQueue` | proc.c:385-393 | the RUNNABLE process of a queue with the least score, the first of equals |
| `Scheduler.Table.SelectMlfq` | proc.c:384-395 | the least in queue, score and slot of all RUNNABLE processes |
| `Scheduler.Table.Dispatch` | proc.c:401-420 | quantum by queue, waiting time zero, RUNNING |
| `Scheduler.Table.RunPass` | proc.c:318-426 | one turn of the scheduler loop is one pass of the machine |
| `Scheduler.Table.TimerTick` | trap.c:82-125 | one tick of the running process is that step of the machine |
| `Scheduler.Table.SetSchedParam` | sysproc.c:174-212 | accepts exactly valid updates from the registered agent |
| `Scheduler.Table.AllocProc` | proc.c:48-110 | the first UNUSED slot, made fresh |
| `EmaProof.EmaStep` | trap.c:92-95 | one update with truncating division never overshoots, shrinks the distance while alpha times it is at least 100, and then stands still |
| `EmaProof.EmaRunSteps` | trap.c:92-101 | the caps never take part and the distance shrinks at every update until then |
| `EmaProof.EmaSettles` | trap.c:85-101 | from the update numbered by the first distance on, the estimate is fixed |
| `Agent.ComputeWorkloadType` | sagent.c:77-90 | the percentage of yields, 50 without data |
| `Agent.Clamp` | sagent.c:131-137 | the nearest value in the range |
| `Agent.DecideOk` | sagent.c:144-213 | every decision keeps the parameters legal and boost, aging, q1 and q2 monotone, with the least size of a change |
| `Agent.SchedAgent.QueueRules` | sagent.c:159-182 | rules 1 to 3 with their counters |
| `Agent.SchedAgent.StarvationRules` | sagent.c:184-206 | rules 4 to 6 with their counters |
| `Agent.SchedAgent.DecideAndUpdate` | sagent.c:144-213 | one epoch is one decision of the model, and the mask of rules that fired |
| `Agent.AlwaysAccepted` | sagent.c:255-265 | for every infinite sequence of signals, every epoch's update passes all tests of sys_setschedparam |
| `Agent.BoostChanges` | sagent.c:144-213 | the boost interval only shrinks, in at most 49 epochs |
| `Agent.AgingChanges` | sagent.c:144-213 | the aging factor only shrinks, in at most 17 epochs |
| `Agent.QuantumChanges` | sagent.c:208-210 | q1 and q2 only grow, in at most 4 and 2 epochs |
| `Agent.WorkloadAtMostHalf` | proc.c:703-731 | in every reachable state the workload signal is at most 50 |
| `Agent.QuantaNeverRise` | sagent.c:168-174 | on kernel telemetry rule 2 never fires, q0 never rises, and q1 and q2 stay 6 and 8 |
| `AgentResponse.CountersTell` | sagent.c:148-206 | rules 1 and 4 fire in every epoch with their signal, rules 2, 3 and 6 in every epoch with it that follows another, for any signals |
| `AgentResponse.BoostIs` | sagent.c:159-191 | after any epochs the boost interval is 500, less 20 for each with queue pressure above 40 and 10 for each with an average wait above 10, but at least 10 |
| `AgentResponse.AgingIs` | sagent.c:200-206 | the aging factor is 50, less 3 for each epoch with abuse after another, but at least 1 |
| `AgentResponse.AlphaRises` | sagent.c:193-198 | n epochs with a phase change raise the fast alpha by 10 n, up to 90 |
| `AgentResponse.AlphaDecays` | sagent.c:193-198 | n epochs without lower it by 5 n, down to the slow alpha and one |
| `AgentResponse.QuantumStep` | sagent.c:159-182 | what rules 1 to 3 make of the quantum of queue 0 in one epoch, told by the signals of that epoch and the one before |
| `AgentResponse.QuantumShrinks` | sagent.c:176-182 | n epochs with workload below 30 lower it by one each but for the first, down to 1 |
| `AgentResponse.QuantumGrows` | sagent.c:168-174 | n epochs with workload above 70 raise it in the same way, up to 10 |
| `AgentResponse.LowerQuanta` | sagent.c:208-210 | the other two quanta rise with it and no further |
| `AgentResponse.FiredTells` | sagent.c:144-213 | the mask tells which rules fired |
| `AgentResponse.ClampNearest` | sagent.c:131-137 | clamp gives the nearest value in the range |
| `AgentResponse.WorkloadIs` | sagent.c:77-90 | the workload signal is the whole percentage of yields among the switches |
| `PtModel.SameTree` | vm.c:160-201 | a tree depends on its tables only |
| `PtModel.LinkFrames` | vm.c:170-176 | linking a frame makes one path lead to it and no other path lead elsewhere |
| `PtModel.LinkTree` | vm.c:170-176 | a linked frame is part of the tree, which is still a tree |
| `PtModel.LinkedPte` | vm.c:167-201 | linking changes the entry it writes and no other page's |
| `PtModel.PagesApart` | mmu.h:136-142 | different pages have different indexes |
| `PtModel.TableGrown` | vm.c:183-187 | a new table from the free list changes no page |
| `PtModel.PageGrown` | vm.c:223-225 | one page mapped, all others as before |
| `PtModel.PageWritten` | vm.c:220-230 | one round of mappages |
| `PtModel.LinkKeepsKernel` | vm.c:170-198 | linking a table or page leaves the kernel's half of the top level alone |
| `PtRights.TablesGrant` | vm.c:175-197 | every table entry on the way to a frame of the tree has the present, write and user bits |
| `PtRights.RightsAre` | vm.c:160-201 | so the write and user rights of a mapped page, which are those that all four entries grant, are those of its own entry |
| `PtRights.NewPagesOpen` | vm.c:290-304 | the user may read and write every page that allocuvm adds |
| `PtRights.CopiedRights` | vm.c:411-423 | the user may read a page of the child if and only if the same holds for the parent, and likewise for writing |
| `PtRights.KernelMapped` | vm.c:107 | a top level whose upper half is kept still maps the kernel |
| `PageTable.Vm.Kalloc` | kalloc.c:76-93 | a free frame, no longer free; the panic if and only if none is |
| `PageTable.Vm.Kfree` | kalloc.c:53-71 | the frame is free, no other frame changes; the panic for frames out of range |
| `PageTable.Vm.Freerange` | kalloc.c:40-47 | every whole frame of the range is free and no other becomes so |
| `PageTable.Vm.NextTable` | vm.c:168-176 | one level: the next table, made of a zeroed free frame if asked, with every page mapped as before |
| `PageTable.Vm.Walk` | vm.c:160-201 | the bottom table for the page; without allocation nothing changes, and it is missing if and only if it is not there |
| `PageTable.Vm.Mappages` | vm.c:212-232 | exactly the pages of the range are mapped, to the frames in order; no other page and nothing outside the tree changes; the panic means that a page was mapped |
| `PageTable.Vm.Freevm` | vm.c:338-384 | every table and page of the tree goes to the free list exactly once, kfree never panics, and no other frame changes |
| `PageTable.Vm.FreeLevel` | vm.c:347-383 | the nested loops, one table at a time, each table last |
| `PtFree.NextChild` | vm.c:347-383 | nothing under an entry is freed before its turn |
| `PtFree.EntryKept` | vm.c:347-383 | a table is intact until its own turn |
| `PtFree.TableLast` | vm.c:370-379 | after all its entries, the table completes its subtree |
| `PageTable.Vm.Setupkvm` | vm.c:102-109 | a top level whose entry 256 leads to the kernel's table, for the kernel alone, and no other entries |
| `PtCopy.EmptyTree` | vm.c:102-109 | it is a tree without pages |
| `PageTable.Vm.Copyuvm` | vm.c:401-429 | a tree of frames that were free, with equal contents, flags and rights over all four levels for pages 1 to sz, the kernel's entry, no other pages, the parent untouched; the panic for an absent page |
| `PtCopy.CopyStep` | vm.c:411-423 | one page of the copy keeps what holds between pages |
| `PtCopy.ParentKept` | vm.c:401-429 | parent and child share no frame |
| `PtCopy.CopyUndone` | vm.c:338-429 | freeing the copy restores the free set and everything outside it |
| `PageTable.Vm.CopyThenFree` | vm.c:338-429 | copyuvm followed by freevm preserves the free set |
| `PageTable.Vm.Allocuvm` | vm.c:278-306 | the pages between the two sizes become zeroed frames off the free list that the user may read and write by the entries of all four levels, and no other page changes |
| `PageTable.Vm.Deallocuvm` | vm.c:312-334 | the mapped pages between the two sizes are unmapped and their frames free, and no other page changes; no panic |
| `PtShrink.EnlargedOne` | vm.c:290-304 | one page of allocuvm |
| `PtShrink.PagesBelow` | mmu.h:155 | rounding a size up gives the number of pages with an address below it |
| `PtShrink.ShrunkOne` | vm.c:322-332 | one page of deallocuvm |
| `PtShrink.GrowThenShrink` | vm.c:278-334 | growing and shrinking back maps the same pages to the same frames, and every frame not free again is a table of the tree |
| `SleepLock.Wakeup1` | proc.c:533-541 | exactly the sleeping processes become runnable |
| `SleepLock.StepInv` | sleeplock.c:22-41 | every step between lock operations keeps who holds which lock and who will wake the sleepers |
| `SleepLock.RunInv` | sleeplock.c:22-41 | so does every run |
| `SleepLock.MutualExclusion` | sleeplock.c:22-41 | over all interleavings at most one process is between acquiresleep's return and releasesleep |
| `SleepLock.NamesOwner` | sleeplock.c:22-41 | over all interleavings the lock's pid names the one process between taking and clearing it, and none if it is free |
| `SleepLock.OutAgainHeld` | sleeplock.c:22-41 | over all interleavings a process that goes in, sleeps or not, and comes out again has held the lock |
| `SleepLock.NoLostWakeup` | proc.c:495-550 | over all interleavings, whenever lock and spin lock are free no process sleeps on the lock or is on its way to |
| `SleepLock.NoDeadlock` | sleeplock.c:22-41 | over all interleavings, while some process uses the lock some such process can go on, once the process table's lock is given up if a process that does not use the lock has it |
| `PipeModel.CountersTell` | pipe.c:85 | the tests on wrapped counters mean full and empty |
| `PipeModel.PutHolds` | pipe.c:93 | a byte put in is at its place in the ring across wrap-around |
| `PipeModel.TakeHolds` | pipe.c:116 | the byte taken out is the oldest one |
| `PipeModel.FilledHolds` | pipe.c:84-94 | a writer's loop puts in as many bytes as fit, in order |
| `PipeModel.DrainedHolds` | pipe.c:113-117 | a reader's loop takes out as many as there are, in order |
| `PipeModel.StepInv` | pipe.c:78-121 | every step of every process keeps it |
| `PipeModel.FirstInFirstOut` | pipe.c:78-121 | in any interleaving what was read is a prefix of what was written, with at most PIPESIZE bytes under way |
| `PipeCalls.WritesOwnBytes` | pipe.c:78-97 | in every run a write call has put in exactly the first bytes of its own buffer, each once and in order; it returns when it has put in all of them or has no reading end, and otherwise sleeps on a full pipe and goes on from there |
| `PipeCalls.ReadsOldestBytes` | pipe.c:100-121 | in every run a read call of n bytes returns the oldest bytes, min(n, those there), and sleeps exactly on an empty pipe with a writing end |
| `PipeCalls.RunNotes` | pipe.c:78-121 | over every run, where a call stands is what its own steps have put in since it began |
| `PipeModel.WritersKept` | pipe.c:84-94 | no writer sleeps unless the pipe is full and has a reading end |
| `PipeModel.HeldKept` | file.c:57-80 | every step keeps: a process in a call has a descriptor of its end, an end with descriptors is open, a killed process is on its way out |
| `PipeModel.ReadersKept` | pipe.c:86-89 | no reader sleeps unless the pipe is empty and has a writing end, the way out of pipewrite without a wakeup included |
| `PipeModel.RunSleepers` | pipe.c:59-121 | over every run no reader and no writer sleeps in vain |
| `PipeModel.FreedUnused` | pipe.c:59-75 | over every run, when pipeclose has freed the pipe no process is in a call on it and none begins one |
| `PipeModel.KilledNeverSeen` | trap.c:156-178 | over every run no process in pipewrite or piperead is marked killed |
| `Pipe.Buffer.WriteSome` | pipe.c:84-94 | the loop of pipewrite on the ring |
| `Pipe.Buffer.ReadSome` | pipe.c:113-117 | the loop of piperead on the ring |
| `HeapModel.UnlinkedOk` | umalloc.c:76-77 | taking a whole block keeps an address-ordered ring of blocks that do not touch |
| `HeapModel.SplitOk` | umalloc.c:78-82 | so does taking the tail of a larger one |
| `HeapModel.CoalescedOk` | umalloc.c:33-43 | so does free, merging with both neighbours where they touch; live and free blocks still cover exactly the memory from sbrk |
| `HeapModel.ObtainedOk` | umalloc.c:54-59 | new memory above the old is one more block |
| `HeapModel.Disjoint` | umalloc.c:24-90 | blocks do not overlap |
| `HeapModel.Reached` | umalloc.c:24-44 | the free list is one ring: every free block is reached from the base |
| `HeapModel.Canonical` | umalloc.c:24-90 | the free list is determined by what is live: its blocks are the longest runs of free units |
| `Umalloc.UnitsFor` | umalloc.c:69 | enough units for the request and a header, and no more |
| `Umalloc.Allocator.FindBelow` | umalloc.c:30-32 | the walk of free ends at the free block right below |
| `Umalloc.Allocator.Free` | umalloc.c:24-44 | the block is no longer live, nothing else changes but the merged free list |
| `Umalloc.Allocator.Search` | umalloc.c:70-89 | once around the ring finds a block with room if there is one |
| `Umalloc.Allocator.Morecore` | umalloc.c:46-61 | at least 4096 units, then some free block has room; or sbrk refused |
| `Umalloc.Allocator.Malloc` | umalloc.c:63-90 | a block of the right size that was not live, after at most one morecore; 0 only if no block has room and sbrk refuses |
| `Umalloc.Allocator.MallocThenFree` | umalloc.c:24-90 | giving a block straight back restores the free list, unless sbrk was asked |
| `ShellRoundTrip.RoundTrip` | sh.c:332-451 | for every command with at most nine arguments a simple command, parsing its tokens gives it back |
| `ShellRoundTrip.LineBack` | sh.c:349-364 | the same for a line inside more input |
| `ShellRoundTrip.PipeBack` | sh.c:366-377 | the same for a pipeline |
| `ShellRoundTrip.ExecBack` | sh.c:420-451 | the same for a simple command or a block |
| `ShellGrammar.ReadsExactly` | sh.c:332-451 | for every token sequence and command: the parser gives that command if and only if the tokens are a spelling of it, with redirections of all three kinds before, between and after the words |
| `ShellGrammar.LineRead` | sh.c:349-364 | every spelling of a line is read as what it means, inside more input |
| `ShellGrammar.LineTree` | sh.c:349-364 | whatever is accepted is a spelling of what it is read as |
| `ShellGrammar.AppendIsWrite` | sh.c:390-399 | for every token sequence, one sign for two gives the same command or the same panic |
| `ShellWords.WordsConserved` | sh.c:332-451 | an accepted line and its command have the same words, each as often |
| `ShellWords.ParseMapped` | sh.c:332-451 | the parser does not look inside words |
| `ShellLexer.LexSpans` | sh.c:300-304 | words end where no word goes on |
| `ShellLexer.TokensRead` | sh.c:270-313 | tokens laid out with any white space, and none where it is not needed, are read back as those tokens |
| `ShellLexer.TextRead` | sh.c:270-451 | so any text of a token sequence parses to what the tokens parse to, panics included |
| `ShellLexer.TextMeans` | sh.c:270-451 | any text of any spelling of a line parses to what the line means |
| `ShellLexer.TextRoundTrip` | sh.c:270-451 | for every well-formed command, parsing any text of it gives the same command |
| `Shell.Parser.Peek` | sh.c:315-325 | skips white space and tells whether one of the characters is next |
| `Shell.Parser.GetToken` | sh.c:270-313 | the next token and where it is, and the rest of the tokens |
| `Shell.Parser.Redirections` | sh.c:379-402 | the loop of parseredirs, and its panic |
| `Shell.Parser.Execs` | sh.c:420-435 | parseexec |
| `Shell.Parser.Args` | sh.c:436-450 | the loop of parseexec, and its panics |
| `Shell.Parser.Block` | sh.c:404-418 | parseblock, and its panic |
| `Shell.Parser.Pipeline` | sh.c:366-377 | parsepipe |
| `Shell.Parser.Line` | sh.c:349-364 | parseline; like the others it ends on every input |
| `ShellMemory.Nulterminate` | sh.c:454-498 | a 0 at the end of every word and nowhere else |
| `ShellMemory.WordsKept` | sh.c:454-498 | then every argument and file name in memory is its token |
| `ShellMemory.ParseLineIn` | sh.c:332-347 | parsecmd as a whole: the command or the panic for every line, each word a C string equal to its token, and nothing else written |

## Left out

- LogProof.LogSpace: takes as a hypothesis that each operation logs at most MAXOPBLOCKS distinct blocks; file.c sizes its chunks from LOGSIZE and does not ensure it.
- LogDisk.Log.BeginOp: one turn of the loop; waiting is the result false.
- LogModel: the number of buffers in the cache is not bounded there, while NBUF and LOGSIZE are both 30; whether bget can panic for lack of a buffer while a full group commits is not stated. CacheModel is the model with NBUF buffers.
- LogDisk.Log.ReadHead: the header block is one that write_head or mkfs wrote; for a count beyond LOGSIZE the source reads and writes outside its arrays.
- LogDisk.Log.RecoverFromLog: the same.
- CacheModel.CacheCoherent: a holder that changes a buffer logs or writes it before it lets go of it, as the callers in log.c and fs.c do.
- Bcache.Cache.Bget: for device 1 only; iderw panics for any other device at its first read.
- Bcache.Cache.Bwrite: for a buffer that bread gave, as all callers have.
- FsModel.BlocksExact: the bitmap is a sequence of bits and an inode a record; how they lie in bytes and disk blocks is not modelled.
- FileSystem.FileSys.Readi: a file has all blocks below its size, which writei and itrunc keep; where one is missing bmap would allocate it. Device inodes end in the outcome ToDevice; the device switch is not modelled.
- Scheduler.Table.RunPass: the switch to the process and back is a change of state only.
- SchedProof.MlfqBoundedWaiting: the machine has one CPU's scheduler loop.
- Agent.SchedAgent.DecideAndUpdate: the signals other than the workload type are parameters; how the agent computes average wait, queue pressure, phase change and abuse is not modelled.
- PageTable.Vm.Kfree: the frame is not free already; the source would put it on the list twice.
- PageTable.Vm.Mappages: physical addresses are page-aligned frames, as in all callers, and the size is positive.
- PageTable.Vm.FreeLevel: the four nested loops of freevm are one recursive method, since each level does the same.
- PageTable.Vm.Allocuvm: user sizes up to 2^47; between that and KERNBASE the top-level index would leave the user half.
- PageTable.Vm.Deallocuvm: old sizes up to 2^47, as allocuvm gives.
- SchedStarvation.EndlessIff: for two processes while no other is RUNNABLE, and bursts of one length.
- PipeModel.HeldKept: a file's reference count is the sum of the descriptors of processes; the file table itself is not modelled.
- SleepLock.NoDeadlock: says that some process can go on, not that each one does; spin locks are not fair.
- PipeModel.FirstInFirstOut: sleep gives up the pipe's lock and goes to sleep in one step; SleepLock shows why that is sound for a lock and its channel.
- Umalloc.Allocator.Malloc: addresses count header units; that a program does not write over headers is assumed.
- ShellMemory.ParseLineIn: allocation of the command nodes cannot fail.
- Exec and redirection nodes of sh.c are changed while parsing goes on; the model builds them at the end of the loop.
- Devices, boot, exec, signals and alarms, system call wrappers, path lookup, directories, the console and the benchmark programs.
- Overflow of counters that only grow (ticks, yield_count, nextpid), except for the pipe's counters.
