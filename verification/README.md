# Verified models of the BEAM code loader, tracer and runtime support

This project models parts of the Erlang/OTP runtime system's C code in Dafny and proves properties
of them for all inputs, all interleavings or all runs. Each module is one component:

- `LiteralRelease`: the epoch scheme that decides when a purged module's literals may be freed. A step
  system over block, unblock, thread progress, enqueue and the collector's own atomic accesses, in
  which every scheduler has a possibly stale view of the block index and of the published area.
  `LiteralProgress` proves that areas are released, and how soon.
- `Purge`: the prepare/abort/complete machine of code purging, with processes being suspended on funs
  of the module, other code being loaded, and processes exiting at any time. `PurgeHistory` says what
  the state means in terms of the steps taken.
- `BreakpointModel`, `BreakpointUpdate`, `BreakpointReaders`, `BreakpointStaging`: the session list of
  a traced function, walked by schedulers without locks while it is updated in stages that are
  separated by code barriers. A barrier is passed when every scheduler has been outside the
  breakpoint instruction. `BreakpointEffect` says which flags every session has after any operations,
  `BreakpointProgress` that operations end.
- `BreakpointRefs`: the two halves of all breakpoints, the objects they share, and the reference
  counts.
- `TraceSnapshot`, `SnapshotProgress` and `PidHash`: reading call_time and call_memory totals while
  calls are being recorded; the open-addressing tables they are recorded in.
- `CallTime`: attribution of a process's running time to traced functions.
- `CatchPool`: the pool of catch entries shared by the code indices.
- `Ranges`: the sorted table from code addresses to modules, functions and lines.
- `CompactNumber`, `CompactEncoder`: the compact numbers of BEAM files as the loader reads and as the
  compiler writes them, and the conversion of large integers.
- `CodeReader`, `CodeGrammar`: the rewriting that finds function boundaries in an instruction stream,
  and a grammar of the streams it accepts.
- `DebugCalls`: the call terms of debug information, validated forwards and decoded backwards.
- `FlatMap`, `MapKeySort`: updates of small maps in heap words, and the sorting of keys at load time
  that the updates rely on.
- `AtomName`: Latin-1 and UTF-8 names, their hash, comparison with a C string, and the order of atoms.
- `BeamOp`, `Wrappers`: shared types.

Protocols are step systems: `Enabled` and `Apply` give the steps, `IsRun` the runs, and the theorems
speak of every state of every run. Where a step follows a pointer, runs are built from steps that do
not follow a NULL or freed one, and it is proved that every enabled step is of that kind. Everything
that the source does in place is a class or a method on an array, proved against functions on values
about which the properties are then proved.

Some properties that one would expect do not hold of the code. For each of these there is a concrete
witness and an exact condition:

- Pausing a counter on a breakpoint that exists for another reason and does not have that counter starts
  it (`BreakpointRefs.PauseStartsCounter`).
- Entries taken in staging that is then aborted damage the active pool's free list unless the list had
  at most one slot (`CatchPool.AbortedLoading`, from `CatchPool.AbortedStaging`, which holds for any
  entries; `CatchPool.AbortedStagingWitness`).
- A refused purge call while funs are pending gives back the stage permission, which is then given back
  again (`Purge.FaultExactlyAfterBadCall`).
- A debug-information arity of 2^32 or more is accepted by its low 32 bits but decoded as a whole
  (`DebugCalls.DecodingRecoversCalls`).
- An unsigned number of more than eight bytes overflows even if its value is small
  (`CompactNumber.OverflowOfSmallValue`); the compiler never writes one
  (`CompactEncoder.WrittenOverflow`).
- Undoing the function-boundary synthesis loses a line operand that is NIL, and operands beyond the
  nominal arity of a header instruction (`CodeReader.UndoIsInverse`, `CodeReader.NilLineWitness`).

- The hash of an atom name can have more than 28 bits, in contrast to the published hashpjw: exactly
  after a round that carries out of 32 bits (`AtomName.HashIsSmall`, `AtomName.LargeHashWitness`).

## Model

| member | source | states |
|---|---|---|
| `LiteralRelease.WordRoundTrip` | erts/emulator/beam/beam_bif_load.c:1673-1698 | The word a block returns has the marker bits, is not zero, fits 32 bits, and gives back block index and scheduler to unblock. |
| `LiteralRelease.InitEstablishes` | erts/emulator/beam/beam_bif_load.c:1575-1602 | With the collector's increment in every counter the invariant holds at the start. |
| `LiteralRelease.IncrementKeeps` | erts/emulator/beam/beam_bif_load.c:1654-1671 | A block that read a stale index and increments later keeps the invariant. |
| `LiteralRelease.UnblockKeeps` | erts/emulator/beam/beam_bif_load.c:1693-1723 | An unblock, with the wake-up it sends when it reaches zero, keeps the invariant. |
| `LiteralRelease.CollectKeeps` | erts/emulator/beam/beam_bif_load.c:1794-1955 | Every atomic step of the collector's loop keeps the invariant. |
| `LiteralRelease.StepKeeps` | erts/emulator/beam/beam_bif_load.c:1654-1955 | Every step of every scheduler, of thread progress and of the collector keeps the invariant. |
| `LiteralRelease.RunsKeepInv` | erts/emulator/beam/beam_bif_load.c:1654-1955 | The invariant holds in every state of every run. |
| `LiteralRelease.LastSwitchWasFor` | erts/emulator/beam/beam_bif_load.c:1811-1861 | An area that awaits release was the published one when the index was switched last. |
| `LiteralRelease.ReleaseIsSafe` | erts/emulator/beam/beam_bif_load.c:1794-1955 | When an area is released, every block that was outstanding at or before the switch away from it is gone, no block is on the old index, and no scheduler can still take one there. |
| `LiteralRelease.NoBlockOnIdleIndex` | erts/emulator/beam/beam_bif_load.c:1654-1681 | With nothing awaiting release, no outstanding block uses the non-current index. |
| `LiteralRelease.CountersCountBlocks` | erts/emulator/beam/beam_bif_load.c:1595-1602 | Each counter is the number of outstanding blocks on it plus the collector's increment, which is missing on at most one counter of the old index; no counter is negative. |
| `LiteralRelease.NoLostWakeUp` | erts/emulator/beam/beam_bif_load.c:1705-1723 | A parked collector whose awaited blocks are gone has a wake-up message to receive. |
| `LiteralRelease.ReleasedInOrder` | erts/emulator/beam/beam_bif_load.c:2340-2357 | Released, awaiting, published, popped and queued areas, in that order, are the areas ever enqueued: none dropped, none twice, first in first out. |
| `LiteralRelease.PublishedAreaIsSeen` | erts/emulator/beam/beam_bif_load.c:1838-1850 | When the collector is told of a new area, every scheduler sees it. |
| `LiteralProgress.ScanReleases` | erts/emulator/beam/beam_bif_load.c:1866-1945 | In every run, when the collector comes back to the counters or is among them and no block is left on the old index, at most n + 2 steps of its own release exactly the next area that was handed in. |
| `LiteralProgress.DrivingNearer` | erts/emulator/beam/beam_bif_load.c:1794-1955 | While an area is unreleased and no block is held, every step of the collector, and of thread progress that it waits for, makes a natural-number variant smaller. |
| `LiteralProgress.EverythingIsReleased` | erts/emulator/beam/beam_bif_load.c:1794-1955 | However the steps interleave: with all blocks given up, none taken and nothing handed in, all areas are released after a bounded number of such steps. |
| `LiteralProgress.SomethingDrives` | erts/emulator/beam/beam_bif_load.c:1705-1955 | Until then such a step is always enabled: the collector is never stuck. |
| `LiteralProgress.EveryRunCanRelease` | erts/emulator/beam/beam_bif_load.c:1654-1955 | Every run can be continued, with no new block and no new area, until exactly the areas handed in are released. |
| `LiteralProgress.BlockCanBeTaken` | erts/emulator/beam/beam_bif_load.c:1654-1681 | A scheduler can take a block at any time, on the index that it sees, and give it back with its word. |
| `LiteralProgress.WakeUpExactly` | erts/emulator/beam/beam_bif_load.c:1705-1723 | An unblock sends a wake-up if and only if it gave up the last block on the counter that the collector waits for. |
| `Purge.PermissionStep` | erts/emulator/beam/beam_bif_load.c:2088-2338 | Every step keeps count of the stage permission: owed, held and given back. |
| `Purge.ProcessesStep` | erts/emulator/beam/beam_bif_load.c:1976-2058 | Every step keeps the list of suspended processes in agreement with who is suspended. |
| `Purge.ResumedAre` | erts/emulator/beam/beam_bif_load.c:2028-2036 | The resume loop resumes every listed process that is alive, each once. |
| `Purge.RunsKeepInv` | erts/emulator/beam/beam_bif_load.c:1976-2338 | The invariant holds in every state of every run. |
| `Purge.PermissionReleases` | erts/emulator/beam/beam_bif_load.c:2088-2338 | A purge that has ended gave the stage permission back once, plus once for every refused call made while funs were pending. |
| `Purge.FaultExactlyAfterBadCall` | erts/emulator/beam/beam_bif_load.c:2329-2336 | Between purges, a permission was given back that the purger did not have if and only if there was such a refused call. |
| `Purge.BadCallWitness` | erts/emulator/beam/beam_bif_load.c:2329-2336 | A run in which one refused call leads to a second release. |
| `Purge.ResumedExactlyOnce` | erts/emulator/beam/beam_bif_load.c:2009-2058 | Every suspension ends in exactly one resumption or in the death of the process; once no module is being purged, none is outstanding. |
| `Purge.NoneAddedAfterResuming` | erts/emulator/beam/beam_bif_load.c:2018-2049 | Between the resume loop and the emptying of the list, a call of a fun adds nobody. |
| `PurgeHistory.ModuleBeingPurged` | erts/emulator/beam/beam_bif_load.c:2088-2170 | The module being purged is the last one asked for, from when its old code was found until the finalization. |
| `PurgeHistory.SuspendedExactly` | erts/emulator/beam/beam_bif_load.c:1976-2036 | A process is suspended if and only if it has called a fun of the module being purged and, since then, the purge has not been finalized and the process has not exited. |
| `PurgeHistory.NoStagingWhileFunsPending` | erts/emulator/beam/beam_bif_load.c:2106-2190 | While funs are marked nobody else can stage code; with no funs the purger does not hold others back. |
| `PurgeHistory.PurgeCanEnd` | erts/emulator/beam/beam_bif_load.c:2088-2338 | From every state of every run at most nine steps of the purger end the purge, with nobody suspended. |
| `BreakpointModel.ReachUnlink` | erts/emulator/beam/beam_bp.c:442-488 | Unlinking a node removes it alone from what is reachable, also for a reader that stands on it. |
| `BreakpointUpdate.UnlinkFirstKeeps` | erts/emulator/beam/beam_bp.c:442-488 | Unlinking the first node of the list keeps the breakpoint invariant. |
| `BreakpointUpdate.UnlinkAfterKeeps` | erts/emulator/beam/beam_bp.c:442-488 | So does unlinking a later one, whose own link stays for readers that stand on it. |
| `BreakpointUpdate.CommitKeeps` | erts/emulator/beam/beam_bp.c:561-568 | The index flip keeps the breakpoint invariant: what was staged is now active. |
| `BreakpointUpdate.UninstallKeeps` | erts/emulator/beam/beam_bp.c:676-757 | So does taking the instruction out of the code when no session is enabled. |
| `BreakpointUpdate.FreeKeeps` | erts/emulator/beam/beam_bp.c:429-440 | So does freeing a node that was unlinked before the last barrier. |
| `BreakpointReaders.WalkKeeps` | erts/emulator/beam/beam_bp.c:993-1014 | A scheduler's own steps keep it on nodes that are not freed and past nodes it has visited. |
| `BreakpointReaders.StepsAreSafe` | erts/emulator/beam/beam_bp.c:993-1014 | In a state of the invariant, no enabled step follows a NULL pointer or touches a freed node. |
| `BreakpointStaging.StepKeeps` | erts/emulator/beam/beam_debug.c:206-266 | Every step of a scheduler and of the updating process keeps the invariant. |
| `BreakpointStaging.RunsKeepInv` | erts/emulator/beam/beam_debug.c:206-266 | The invariant holds in every state of every run. |
| `BreakpointStaging.RunsAreSafe` | erts/emulator/beam/beam_bp.c:993-1014 | In every run, a scheduler that fetched the breakpoint finds `gen_bp` set, and nobody touches a freed node. |
| `BreakpointStaging.EveryEnabledSessionIsReached` | erts/emulator/beam/beam_bp.c:993-1014 | A scheduler that ends its walk has visited every linked and enabled session, whatever was linked or unlinked meanwhile, and goes on with the function's own instruction. |
| `BreakpointStaging.EnabledMeansInstalled` | erts/emulator/beam/beam_debug.c:217-233 | In every state of every run, a linked session with active flags has the breakpoint instruction in the code. |
| `BreakpointStaging.NoHalfChangesUnderAReader` | erts/emulator/beam/beam_bp.c:561-582 | The data half a scheduler looks at is not written while it looks, and its node is not freed. |
| `BreakpointStaging.QuietMeansConsolidated` | erts/emulator/beam/beam_bp.c:442-488 | Between operations the heap holds exactly the linked nodes, their halves are equal and enabled, and the instruction is in the code exactly when there is a node. |
| `BreakpointEffect.SessionsHaveTheirFlags` | erts/emulator/beam/beam_bp.c:2144-2363 | In every state of every run each session has at most one linked node, and its active flags are exactly what the committed operations asked for, in their order. |
| `BreakpointEffect.OperationEffect` | erts/emulator/beam/beam_bp.c:2144-2363 | Over one whole operation the named session's flags grow or shrink by the given ones if the function matches; all other sessions keep theirs. |
| `BreakpointEffect.BeginEffect` | erts/emulator/beam/beam_bp.c:2144-2363 | Staging leaves the active flags of every session and gives the staged half the requested ones. |
| `BreakpointEffect.FindExact` | erts/emulator/beam/beam_bp.c:2112-2141 | The lookup finds a session's node if and only if it is linked. |
| `BreakpointProgress.OperationsEnd` | erts/emulator/beam/beam_debug.c:206-266 | Every run can go on, without a further operation, until the one that is going on has ended. |
| `BreakpointProgress.OperationTakesEffect` | erts/emulator/beam/beam_debug.c:206-266 | Any operation can be begun between operations and brought to an end at which it is in effect. |
| `BreakpointProgress.SchedulerCanWalk` | erts/emulator/beam/beam_bp.c:993-1014 | Whenever a session is enabled, a scheduler can fetch the breakpoint instruction and walk to the end of the list, and has then visited that session. |
| `BreakpointRefs.DropKeeps` | erts/emulator/beam/beam_bp.c:2366-2407 | Giving up a reference, and freeing at zero, keeps the counts exact. |
| `BreakpointRefs.TakeKeeps` | erts/emulator/beam/beam_bp.c:491-559 | Taking a reference keeps the counts exact. |
| `BreakpointRefs.AllocatedMeansReferenced` | erts/emulator/beam/beam_bp.c:2366-2407 | With exact counts, an object is allocated if and only if a flagged half points to it. |
| `BreakpointRefs.ExactCountsAreUnique` | erts/emulator/beam/beam_bp.c:2366-2407 | The flagged pointers determine the reference counts. |
| `BreakpointRefs.ConsolidatedHalves` | erts/emulator/beam/beam_bp.c:491-559 | Consolidation leaves both halves as the active one was, removes the breakpoint exactly when that was off, and touches no other breakpoint. |
| `BreakpointRefs.ConsolidateAllHalves` | erts/emulator/beam/beam_bp.c:417-428 | The same for any list of breakpoints. |
| `BreakpointRefs.OperationRestoresHalves` | erts/emulator/beam/beam_bp.c:2144-2407 | After any stages, the index flip and consolidation, both halves of every breakpoint are equal again, and the flip has not changed a breakpoint that was not touched. |
| `BreakpointRefs.StageAllWish` | erts/emulator/beam/beam_bp.c:2144-2363 | After any stages the staging half has the traces, objects and running counters that the sets added and the clears removed. |
| `BreakpointRefs.OperationGrantsWishes` | erts/emulator/beam/beam_bp.c:442-559 | After a whole operation both halves have them, a breakpoint left with nothing is gone, and others are as they were. |
| `BreakpointRefs.PauseStartsCounter` | erts/emulator/beam/beam_bp.c:2224-2292 | After a pause the counter runs if and only if the breakpoint existed without it. |
| `BreakpointRefs.PauseStartsCounterWitness` | erts/emulator/beam/beam_bp.c:2157-2162 | A breakpoint with local trace only, on which pausing call_time starts it. |
| `BreakpointRefs.Breakpoints.constructor` | erts/emulator/beam/beam_bp.c:175-176 | No breakpoints and no objects; counts exact. |
| `BreakpointRefs.Breakpoints.SetFunctionBreak` | erts/emulator/beam/beam_bp.c:2144-2294 | Stages the request in the inactive half and keeps the counts exact. |
| `BreakpointRefs.Breakpoints.ClearFunctionBreak` | erts/emulator/beam/beam_bp.c:2331-2363 | Clears the given flags in the inactive half and keeps the counts exact. |
| `BreakpointRefs.Breakpoints.Commit` | erts/emulator/beam/beam_bp.c:561-568 | Flips the index and changes nothing else. |
| `BreakpointRefs.Breakpoints.Consolidate` | erts/emulator/beam/beam_bp.c:442-559 | Makes the halves equal or removes the breakpoint, and keeps the counts exact. |
| `BreakpointRefs.Breakpoints.Perform` | erts/emulator/beam/beam_bp.c:2144-2407 | Every sequence of set, clear, commit and consolidate on any functions and sessions keeps the counts exact. |
| `PidHash.FreeMeansAbsent` | erts/emulator/beam/beam_bp.c:1950-1961 | A probe that meets a free bucket has passed every place the pid could be. |
| `PidHash.SomeFree` | erts/emulator/beam/beam_bp.c:1963-1988 | A table with fewer entries than buckets has a free bucket, so every probe ends. |
| `PidHash.InsertEffect` | erts/emulator/beam/beam_bp.c:1926-1948 | Writing a new entry to the free bucket the probe finds adds exactly that entry. |
| `PidHash.UpdateEffect` | erts/emulator/beam/beam_bp.c:1990-2006 | Rewriting an entry in place changes the totals of that pid only. |
| `PidHash.PidTable.constructor` | erts/emulator/beam/beam_bp.c:1910-1924 | An empty table. |
| `PidHash.PidTable.UsedIsSize` | erts/emulator/beam/beam_bp.c:1963-1988 | `used` is the number of entries and less than the number of buckets. |
| `PidHash.PidTable.Get` | erts/emulator/beam/beam_bp.c:1950-1961 | Terminates, and finds the bucket of a pid if and only if it has one. |
| `PidHash.PidTable.Rehash` | erts/emulator/beam/beam_bp.c:1926-1948 | Preserves the map. |
| `PidHash.PidTable.Put` | erts/emulator/beam/beam_bp.c:1963-1988 | Adds one entry; the table doubles exactly if it was more than seventy percent full, and is not that full before the new entry. |
| `PidHash.PidTable.Accumulate` | erts/emulator/beam/beam_bp.c:1990-2006 | Adds exactly count and accumulator to one pid and nothing to any other. |
| `PidHash.CollectThread` | erts/emulator/beam/beam_bp.c:1599-1619 | Adds one thread's map to the total, pointwise. |
| `PidHash.Collect` | erts/emulator/beam/beam_bp.c:1599-1619 | Adds the pointwise sum of all threads' maps to the total; for each pid, in plain numbers. |
| `PidHash.AccumulateAll` | erts/emulator/beam/beam_bp.c:1990-2006 | Any sequence of accumulations gives each pid the sums of its own items. |
| `PidHash.AccumulatedAllIsSum` | erts/emulator/beam/beam_bp.c:1990-2006 | Accumulating onto a map is adding the totals of the items to it. |
| `PidHash.AccumulatedAllAppend` | erts/emulator/beam/beam_bp.c:1990-2006 | Accumulating two lists one after the other is accumulating their concatenation. |
| `PidHash.AccumulatedAnyOrder` | erts/emulator/beam/beam_bp.c:1990-2006 | The same items in any order accumulate to the same totals. |
| `PidHash.TotalsAreSums` | erts/emulator/beam/beam_bp.c:1990-2006 | A pid has totals if and only if an item was recorded for it, and they are the integer sums of its items. |
| `PidHash.SumAllAdds` | erts/emulator/beam/beam_bp.c:1599-1619 | The sum over all threads has exactly the pids of all tables, with the integer sums of their numbers. |
| `TraceSnapshot.RecordKeeps` | erts/emulator/beam/beam_bp.c:1276-1332 | A call recorded by any scheduler at any point of the protocol, in any of the tables that it holds, keeps the sums. |
| `TraceSnapshot.StepsAreSafe` | erts/emulator/beam/beam_bp.c:1621-1662 | No enabled step touches a table object that was freed. |
| `TraceSnapshot.StepKeeps` | erts/emulator/beam/erl_bif_trace.c:2049-2100 | Every step of a recording scheduler and of the snapshot keeps the invariant. |
| `TraceSnapshot.RunsKeepInv` | erts/emulator/beam/beam_bp.c:1490-1662 | The invariant holds in every state of every run. |
| `TraceSnapshot.NothingLostOrCountedTwice` | erts/emulator/beam/beam_bp.c:1490-1662 | Between snapshots, each pid's count and accumulator over all tables are those at the beginning plus the integer sums over all calls recorded in the run. |
| `TraceSnapshot.TablesHoldRecorded` | erts/emulator/beam/beam_bp.c:1490-1662 | Between snapshots the tables hold the totals at the beginning and everything recorded. |
| `TraceSnapshot.SnapshotIsExact` | erts/emulator/beam/beam_bp.c:1579-1619 | The collected result is the totals when the snapshot was asked for plus what was still recorded in the real tables; all the rest is in the temporary ones. |
| `TraceSnapshot.SnapshotIsExactForEach` | erts/emulator/beam/beam_bp.c:1579-1619 | For each pid the result is the sums of what was recorded before the snapshot was asked for and of what landed in the real tables since; with the temporary tables it is everything recorded. |
| `SnapshotProgress.SnapshotsEnd` | erts/emulator/beam/erl_bif_trace.c:2049-2100 | Every run can go on until no snapshot is being taken. |
| `SnapshotProgress.SnapshotTakes` | erts/emulator/beam/erl_bif_trace.c:2049-2100 | A snapshot can be asked for and brought to an end, and then has, for each pid, exactly the sums of what was recorded. |
| `SnapshotProgress.CallIsRecorded` | erts/emulator/beam/beam_bp.c:1276-1332 | A scheduler can record any call at any point, except a dirty one while the shared table is being added to. |
| `CallTime.TotalAccumulated` | erts/emulator/beam/beam_bp.c:1336-1349 | Booking time on one function adds it to the total. |
| `CallTime.FramesPush` | erts/emulator/beam/beam_bp.c:1120-1150 | A return frame with the previous function keeps frames and call stack in step. |
| `CallTime.FramesReplace` | erts/emulator/beam/beam_bp.c:1124-1126 | A call from the last position can leave the return frame that is there. |
| `CallTime.FramesPop` | erts/emulator/beam/beam_bp.c:1378-1397 | The top frame holds the function below on the call stack. |
| `CallTime.ProcessTime.Call` | erts/emulator/beam/beam_bp.c:1276-1332 | The count of the called function grows by one and no other; the time since the last event goes to the function that was current, and to no other; the called one becomes current. |
| `CallTime.ProcessTime.Return` | erts/emulator/beam/beam_bp.c:1351-1397 | The time goes to the returning function, and its traced caller becomes current again. |
| `CallTime.ProcessTime.ScheduleOut` | erts/emulator/beam/beam_bp.c:2028-2046 | The books now say exactly what was spent: per function its calls and its time, and in total the running time with a traced function current. |
| `CallTime.ProcessTime.ScheduleIn` | erts/emulator/beam/beam_bp.c:2047-2060 | The time while the process did not run is booked on nobody. |
| `CallTime.ProcessTime.Settled` | erts/emulator/beam/beam_bp.c:2017-2068 | When nothing waits to be booked, the books agree with what happened if and only if they are equal to it, entry by entry and in total. |
| `CallTime.Replay` | erts/emulator/beam/beam_bp.c:1276-1397 | For every list of events the tables hold, per function, the number of its calls in the list and the time the process ran with it on top, both counted on the list. |
| `CatchPool.GrowKeeps` | erts/emulator/beam/beam_catches.c:121-134 | The doubled vector has the same chains with the same entries. |
| `CatchPool.ConsKeeps` | erts/emulator/beam/beam_catches.c:107-144 | Taking an entry keeps free list and chains acyclic, disjoint and a partition of the slots below the high mark. |
| `CatchPool.ConsSpares` | erts/emulator/beam/beam_catches.c:107-144 | Taking an entry writes to no entry of a chain. |
| `CatchPool.AbortedStaging` | erts/emulator/beam/beam_catches.c:102-144 | For any sequence of entries taken in staging that is given up, with or without reallocation, the active free list, and with it the whole active pool, is intact if and only if every free slot that was taken got the link it already had. |
| `CatchPool.AbortedLoading` | erts/emulator/beam/beam_catches.c:102-144 | If the first of the entries ends its module's chain, the active pool is intact if and only if no entry was taken or its free list had at most one slot. |
| `CatchPool.AbortedStagingWitness` | erts/emulator/beam/beam_catches.c:59-203 | From the initial table: load two catches, purge the module, take one entry in a staging that is aborted; the active free list is broken. |
| `CatchPool.FreeKeeps` | erts/emulator/beam/beam_catches.c:180-202 | Moving a chain's head to the free list keeps the partition. |
| `CatchPool.FreeStep` | erts/emulator/beam/beam_catches.c:180-202 | It takes one code pointer off that chain and leaves the others' alone. |
| `CatchPool.CatchTable.constructor` | erts/emulator/beam/beam_catches.c:59-74 | All indices share one vector; nothing is loaded. |
| `CatchPool.CatchTable.CollectOldVec` | erts/emulator/beam/beam_catches.c:77-86 | The allocated vectors are again exactly those some pool refers to. |
| `CatchPool.CatchTable.StartStaging` | erts/emulator/beam/beam_catches.c:89-100 | Staging starts from the active pool; loaded modules keep their code pointers. |
| `CatchPool.CatchTable.Grow` | erts/emulator/beam/beam_catches.c:121-134 | Reallocation changes no code pointer, staged or loaded, and leaves no unused vector. |
| `CatchPool.CatchTable.Cons` | erts/emulator/beam/beam_catches.c:107-144 | One module's staged chain grows by the new code pointer; all other chains, staged and loaded, keep theirs. |
| `CatchPool.CatchTable.EndStaging` | erts/emulator/beam/beam_catches.c:102-105 | After a commit every loaded module has its staged code pointers, and those loaded before have the ones they had. After an abort the table is as usable as before if and only if nothing was taken or the free list has at most one slot; otherwise that list is broken. |
| `CatchPool.CatchTable.DelMod` | erts/emulator/beam/beam_catches.c:166-203 | Succeeds if and only if all the chain's code pointers lie in the module; then the chain is on the free list, and other modules keep their code pointers. |
| `CatchPool.CatchTable.LiveEntry` | erts/emulator/beam/beam_catches.c:146-154 | A loaded module's entries are inside the active vector and hold its code pointers. |
| `CatchPool.CatchTable.Car` | erts/emulator/beam/beam_catches.c:146-154 | An error exactly for an index out of range; a loaded module's own code pointer for its entries. |
| `Ranges.InsertKeeps` | erts/emulator/beam/beam_ranges.c:169-175 | Sifting gives a sorted permutation. |
| `Ranges.SortedIsOrdered` | erts/emulator/beam/beam_ranges.c:166-168 | Sorted disjoint ranges are in address order, and are the same ranges. |
| `Ranges.UnpurgedOrdered` | erts/emulator/beam/beam_ranges.c:148-157 | The ranges that are not purged are disjoint and still sorted. |
| `Ranges.PurgeOne` | erts/emulator/beam/beam_ranges.c:223-228 | Making a range empty keeps the order and removes it from the live ones. |
| `Ranges.InOneRange` | erts/emulator/beam/beam_ranges.c:307-329 | An address is in at most one range. |
| `Ranges.Sift` | erts/emulator/beam/beam_ranges.c:169-175 | The loop puts the first range where it belongs among the sorted ones, in place. |
| `Ranges.Arrange` | erts/emulator/beam/beam_ranges.c:159-176 | With no, one or several new ranges, the table ends up in order with all of them. |
| `Ranges.RangeTable.constructor` | erts/emulator/beam/beam_ranges.c:98-115 | An empty table. |
| `Ranges.RangeTable.StartStaging` | erts/emulator/beam/beam_ranges.c:117-134 | Room for the active ranges and the announced ones; live ranges unchanged. |
| `Ranges.RangeTable.Update` | erts/emulator/beam/beam_ranges.c:193-221 | Inserts a new range within the allocation. |
| `Ranges.RangeTable.CopyLive` | erts/emulator/beam/beam_ranges.c:148-157 | Appends exactly the live ranges, within the allocation. |
| `Ranges.RangeTable.EndStaging` | erts/emulator/beam/beam_ranges.c:136-191 | After a commit the live ranges are the old ones and the inserted ones, in order; otherwise the old ones. |
| `Ranges.RangeTable.Find` | erts/emulator/beam/beam_ranges.c:307-329 | From any cached starting point, finds the live range that contains the address if there is one. |
| `Ranges.RangeTable.Remove` | erts/emulator/beam/beam_ranges.c:223-228 | Purges exactly the module that starts at the given address. |
| `Ranges.Search` | erts/emulator/beam/beam_ranges.c:262-280 | Finds the entry that covers the address, if there is one. |
| `Ranges.CoversOne` | erts/emulator/beam/beam_ranges.c:262-280 | At most one entry covers an address. |
| `Ranges.LookupLoc` | erts/emulator/beam/beam_ranges.c:330-368 | Location and heap need as a scan of the function's lines would give them. |
| `Ranges.LookupFunctionInfo` | erts/emulator/beam/beam_ranges.c:244-280 | Function, location and heap need as a scan over live modules, functions and lines would give them; nothing for an address in no live module. |
| `CompactNumber.BigBound` | erts/emulator/beam/beam_file.c:156-171 | Bytes denote less than their power of 256, and at least half of it if and only if the top bit is set. |
| `CompactNumber.ReversedDenotes` | erts/emulator/beam/beam_file.c:2218-2221 | Reversed bytes, least significant first, denote the same number. |
| `CompactNumber.UnpackVarint` | erts/emulator/beam/beam_file.c:156-171 | Up to eight bytes give the word they denote, as a signed word; more give none. |
| `CompactNumber.SignExtendedDenotes` | erts/emulator/beam/beam_file.c:216-221 | Shifting left and right again gives the two's complement value of the bytes. |
| `CompactNumber.PrefixedForm` | erts/emulator/beam/beam_file.c:198-209 | A nested size is taken if and only if it is unsigned, fits a word and is small enough. |
| `CompactNumber.BeamReader.ReadU8` | erts/emulator/beam/beam_file.c:101-110 | The next byte, if there is one. |
| `CompactNumber.BeamReader.ReadBytes` | erts/emulator/beam/beam_file.c:112-121 | The next bytes, if there are as many. |
| `CompactNumber.BeamReader.ReadTagged` | erts/emulator/beam/beam_file.c:173-249 | Terminates; fails exactly on malformed bytes; otherwise moves past the number and gives what its bytes denote. |
| `CompactNumber.DecodedValue` | erts/emulator/beam/beam_file.c:173-249 | The word, or the bytes that were kept, denote the number that was written: two's complement for long integers, unsigned otherwise. |
| `CompactNumber.Overflow` | erts/emulator/beam/beam_file.c:226-243 | A number that is not an integer is marked as overflow if and only if it has more than eight bytes or does not fit a signed word. |
| `CompactNumber.OverflowOfSmallValue` | erts/emulator/beam/beam_file.c:226-243 | Overflow means exceeding a signed word if and only if the number does not have more than eight bytes and a value that fits. |
| `CompactNumber.OverflowWitness` | erts/emulator/beam/beam_file.c:226-243 | Nine zero bytes overflow. |
| `CompactNumber.NegateStep` | erts/emulator/beam/beam_file.c:2228-2231 | One byte of the negation, with its carry. |
| `CompactNumber.Negate` | erts/emulator/beam/beam_file.c:2223-2234 | The loop computes the two's complement negation, including the final carry. |
| `CompactNumber.NegatedMagnitude` | erts/emulator/beam/beam_file.c:2223-2234 | For a negative number the final carry is zero and the buffer holds the magnitude. |
| `CompactNumber.Pad` | erts/emulator/beam/beam_file.c:2255-2258 | Padding to whole words stays within eight more bytes and keeps the number. |
| `CompactNumber.MarshalInteger` | erts/emulator/beam/beam_file.c:2184-2260 | Sign and magnitude of the same number; refused if and only if the two top bytes of the magnitude are zero. |
| `CompactEncoder.UnsignedDenotes` | lib/compiler/src/beam_asm.erl:873-878 | The shortest unsigned form denotes the number and has no leading zero. |
| `CompactEncoder.ToBytesDenotes` | lib/compiler/src/beam_asm.erl:873-878 | The bytes of a non-negative number denote it, signed or unsigned. |
| `CompactEncoder.NegativeDenotes` | lib/compiler/src/beam_asm.erl:880-887 | The bytes of a negative number denote it in two's complement. |
| `CompactEncoder.RoundTrip` | lib/compiler/src/beam_asm.erl:856-871 | For every tag, number and following bytes, the loader finds tag, bytes and length as written, if and only if it can take the size; otherwise it refuses. |
| `CompactEncoder.RoundTripValue` | lib/compiler/src/beam_asm.erl:856-871 | The value that the loader sees is the number the compiler wrote. |
| `CompactEncoder.WrittenOverflow` | lib/compiler/src/beam_asm.erl:856-878 | Of the numbers the compiler writes, exactly those overflow that exceed a signed word. |
| `CompactEncoder.WrittenNormalised` | lib/compiler/src/beam_asm.erl:873-887 | No integer the compiler writes is refused as not normalised. |
| `CodeReader.OutputAlternates` | erts/emulator/beam/beam_file.c:2542-2660 | In every accepted stream starts and ends alternate up to code_end, and each end has the labels of the start before it. |
| `CodeReader.UndoIsInverse` | erts/emulator/beam/beam_file.c:2562-2652 | Undoing the synthesis gives back the raw stream if and only if all function headers are plain. |
| `CodeReader.NilLineWitness` | erts/emulator/beam/beam_file.c:2562-2652 | An accepted stream with a NIL line operand that undoing does not give back. |
| `CodeReader.Reader.constructor` | erts/emulator/beam/beam_file.c:2156-2180 | A reader at the beginning will give out the rewritten stream. |
| `CodeReader.Reader.SynthesizeFuncEnd` | erts/emulator/beam/beam_file.c:2521-2540 | Puts the end of the current function in front of the queue. |
| `CodeReader.Reader.ReadLabel` | erts/emulator/beam/beam_file.c:2555-2652 | Queues what the label and the instructions after it become, or fails on a malformed boundary. |
| `CodeReader.Reader.Next` | erts/emulator/beam/beam_file.c:2542-2668 | Gives out the next instruction of the rewritten stream, and fails only if the stream is not accepted. |
| `CodeReader.ReadAll` | erts/emulator/beam/beam_file.c:2542-2668 | Repeated calls give the rewritten stream, and an error if and only if the stream is not accepted. |
| `CodeGrammar.AcceptedExactly` | erts/emulator/beam/beam_file.c:2542-2668 | A stream is accepted if and only if it is a sequence of instructions, labels with their followers and function headers, and then the end of the code; the output is determined by these. |
| `CodeGrammar.RefusedExactly` | erts/emulator/beam/beam_file.c:2562-2612 | It is refused if and only if after such a sequence it is out, or has a label with the end after it (with or without a line), a func_info without an entry label, or a label operand that is not TAG_u. |
| `CodeGrammar.ReadStream` | erts/emulator/beam/beam_file.c:2542-2668 | The reader gives an error exactly for the streams the grammar excludes, and otherwise the output of the grammar. |
| `CodeGrammar.ModuleIsAccepted` | erts/emulator/beam/beam_file.c:2562-2660 | Every list of functions, with or without lines, is accepted and comes out as start, entry, body and end of each, then the end of the code. |
| `CodeGrammar.BodyPasses` | erts/emulator/beam/beam_file.c:2555-2585 | A function body passes through unchanged, labels included. |
| `DebugCalls.Validate` | erts/emulator/beam/beam_file.c:848-915 | Accepts exactly the lists of operands that parse as calls, and keeps their terms. |
| `DebugCalls.WrittenIsAccepted` | erts/emulator/beam/beam_file.c:848-915 | Every list of calls, written out, is accepted and stands for these calls. |
| `DebugCalls.AcceptedExactly` | erts/emulator/beam/beam_file.c:848-915 | Operands stand for a list of calls if and only if they are how these calls are written, up to the bits of a number that an `int` drops. |
| `DebugCalls.DecodeCalls` | erts/emulator/beam/beam_bif_load.c:1416-1442 | Depends on the call terms only, not on the variable terms before them. |
| `DebugCalls.DecodedEncoded` | erts/emulator/beam/beam_bif_load.c:1416-1442 | Decoding backwards is the inverse of writing calls as terms. |
| `DebugCalls.TermsEncode` | erts/emulator/beam/beam_file.c:848-915 | An accepted list whose arities fit is the written form of its calls. |
| `DebugCalls.NormalDecoded` | erts/emulator/beam/beam_bif_load.c:1416-1442 | If only proper calls are decoded, every integer was a proper arity. |
| `DebugCalls.DecodingRecoversCalls` | erts/emulator/beam/beam_bif_load.c:1416-1442 | For every accepted list, decoding recovers the calls if and only if every arity operand fits 32 bits (up to the bits a small integer drops). |
| `DebugCalls.LargeArityWitness` | erts/emulator/beam/beam_file.c:859-876 | An accepted remote call that is decoded as something else. |
| `FlatMap.MergeOverrides` | erts/emulator/beam/beam_common.c:2080-2114 | The merge denotes the old map overridden by the updates. |
| `FlatMap.MergeAscends` | erts/emulator/beam/beam_common.c:2080-2114 | The merged keys are strictly ascending. |
| `FlatMap.MergeLength` | erts/emulator/beam/beam_common.c:2134-2155 | The merge has the old length exactly when it has the old key tuple. |
| `FlatMap.UnchangedEntries` | erts/emulator/beam/beam_common.c:2134-2142 | The merge is the old entries if and only if the override is the old map. |
| `FlatMap.AsMapSize` | erts/emulator/beam/beam_common.c:2178-2186 | A strictly ascending key tuple has as many keys as the map it denotes. |
| `FlatMap.MergeLoop` | erts/emulator/beam/beam_common.c:2080-2114 | The main loop writes a prefix of the merge, reads only the old map, and its flags say whether keys or values changed. |
| `FlatMap.CopyUpdates` | erts/emulator/beam/beam_common.c:2122-2133 | Appends the remaining updates. |
| `FlatMap.CopyOlds` | erts/emulator/beam/beam_common.c:2156-2166 | Appends the remaining old keys and values. |
| `FlatMap.CopyValues` | erts/emulator/beam/beam_common.c:2143-2155 | Appends the remaining old values. |
| `FlatMap.FillIn` | erts/emulator/beam/beam_common.c:2168-2186 | Header, sizes, and a filler that covers exactly the unused words between values and keys. |
| `FlatMap.UpdateFlat` | erts/emulator/beam/beam_common.c:2012-2196 | The old map itself, or a map with the old key tuple, or a new map with exact sizes and filler, or a hashed one, each exactly when it should be; nothing below the heap top is written. |
| `FlatMap.NewMap` | erts/emulator/beam/beam_common.c:1863-1922 | A map of the updates when the old map is empty: flat, in exactly the reserved words, up to the size limit, and hashed beyond it. |
| `FlatMap.UpdateAssoc` | erts/emulator/beam/beam_common.c:1959-2196 | For flat, empty and hashed maps the result denotes the override, within the reserved words; an unchanged flat map is returned as it is. |
| `FlatMap.FirstIsSmallest` | erts/emulator/beam/beam_common.c:2336-2343 | The first missing key is the smallest. |
| `FlatMap.ExactLoop` | erts/emulator/beam/beam_common.c:2299-2334 | The loop over the old keys matches the updates in order. |
| `FlatMap.ExactFlat` | erts/emulator/beam/beam_common.c:2270-2343 | The same map as the general update if all keys exist, otherwise the first missing key. |
| `FlatMap.UpdateExact` | erts/emulator/beam/beam_common.c:2202-2344 | The override if all keys exist, otherwise the smallest missing key; an error for a term that is not a map; within the reserved words. |
| `MapKeySort.SortSorts` | erts/emulator/beam/beam_transform_helpers.c:97-101 | Sorting by key gives an ordered permutation. |
| `MapKeySort.SortedKeysAscend` | erts/emulator/beam/beam_transform_helpers.c:53-115 | The sorted keys are what the map updates demand if and only if no key occurs twice. |
| `MapKeySort.KeySort` | erts/emulator/beam/beam_transform_helpers.c:53-115 | Refuses, leaving everything as it is, exactly if a key is not a literal and there are several; otherwise leaves the same pairs sorted by key. |
| `AtomName.Utf8Length` | erts/emulator/beam/atom.c:193-225 | The UTF-8 form of a Latin-1 name is at most twice as long. |
| `AtomName.Utf8CharDenotes` | erts/emulator/beam/atom.c:205-222 | The one or two bytes denote the character (section 3 of RFC 3629). |
| `AtomName.Latin1ToUtf8` | erts/emulator/beam/atom.c:193-225 | An ASCII name stays as it is; otherwise the buffer holds the UTF-8 form. |
| `AtomName.FoldedUtf8` | erts/emulator/beam/atom.c:88-96 | The hash function sees the Latin-1 characters of a converted name. |
| `AtomName.AtomHash` | erts/emulator/beam/atom.c:80-105 | hashpjw over the characters with two-byte Latin-1 characters folded. |
| `AtomName.HashOfLatin1` | erts/emulator/beam/atom.c:80-105 | For every Latin-1 string, the hash of its UTF-8 form is plain hashpjw of the string. |
| `AtomName.ShortHash` | erts/emulator/beam/atom.c:97-102 | For ASCII names of up to six characters the hash is the base-16 number of the characters. |
| `AtomName.FoldTopFolds` | erts/emulator/beam/atom.c:98-101 | Bits 28 to 31 are cleared after being added, without carry, to bits 4 to 7; all others stay. |
| `AtomName.HashIsSmall` | erts/emulator/beam/atom.c:80-105 | The hash has 28 bits all the way if and only if no round carries out of 32 bits. |
| `AtomName.LargeHashWitness` | erts/emulator/beam/atom.c:80-105 | A Latin-1 name with a larger hash. |
| `AtomName.Utf8Valid` | erts/emulator/beam/atom.c:193-225 | The converted name is valid UTF-8 (section 4 of RFC 3629). |
| `AtomName.IsAtomStr` | erts/emulator/beam/atom.h:87-121 | For a valid UTF-8 name, true if and only if the UTF-8 form of the string up to its NUL is the name; nothing after the NUL is read. |
| `AtomName.CmpAtomsIsLess` | erts/emulator/beam/erl_utils.h:195-221 | Comparing ordinals first, then the rest of the names, gives exactly the order of the names byte by byte. |
| `AtomName.OrdinalIsTop` | erts/emulator/beam/atom.c:166-182 | The ordinal is the upper 31 bits of the first four bytes, and the difference of two fits an `int`. |
| `AtomName.OrdinalsDiffer` | erts/emulator/beam/atom.c:166-186 | Different ordinals point to the first difference of the zero-padded names. |

## Left out

- Real memory ordering: every atomic access is one step; stale views are modelled where the source relies on thread progress or code barriers.
- Locks, allocators and garbage collection: reserved heap words are taken as available, and a mutex makes its section one step.
- Match specifications, tracers and the messages they send: a breakpoint's data is its flags and its counted objects.
- `BreakpointModel` has one function; other functions' operations appear as flips of the active index.
- `TraceSnapshot` has one breakpoint and one kind of total at a time; taking a snapshot of all breakpoints while the system is blocked is not modelled.
- CallTime.ProcessTime.Call: one session and one process, and no other kind of tracing that puts return frames on the stack.
- Exceptions that unwind traced calls are not part of the call-time model.
- `PidHash.PidTable.Put`: the floating-point load limit is taken as ten times the entries exceeding seven times the buckets.
- `PidHash.Collect`: the total table is made when the first thread table exists, not when its first entry is met.
- `Purge`: the fun entries' own pending-purge markers and addresses, on_load instances and the literals handed to the collector.
- `CatchPool.CatchTable.DelMod`: called while nothing is staged, as the purge of a module does; the debug-only staging flag is an ordinary field here.
- `Ranges`: start-up, where the active and staging indices coincide, and the memory counter; the third code index's table is only ever freed.
- `Ranges.SortAll` stands for the C library's `qsort`, and `MapKeySort.Sort` for the same in the loader.
- FlatMap.NewMap: the heap words of hashed maps; a hashed map is its contents, and building or inserting into one is taken as correct.
- `CodeReader`: decoding of operands, apart from compact numbers; the stream is the sequence of instructions that decode.
- `CompactNumber.MarshalInteger`: the construction of the bignum term from sign and magnitude.
- `DebugCalls`: frame sizes, variable mappings and the construction of the result term.
- The atom table, its lock and its index; the limit of 255 characters.
- Loading itself, the generated opcode and transformation tables, the emulators, BIF wrappers, disassembly, error logging.
