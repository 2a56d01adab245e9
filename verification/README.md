# Subcontexts: a model of the shared-memory core

A subcontext is a piece of virtual memory that several processes map at the same addresses.
Its state lives in page 0 of a backing file: lists of regions, a log of operations that every
process must carry out, a malloc free list.  This project models the user-space implementation
of that machinery, and the older routine that revokes mappings derived from other mappings, and
proves what they guarantee over every run.

* `Protocol*.dfy`: the cleanup log as a transition system over any number of processes.  Each
  background thread has a position, the locks that go with it, its first step and its clean-up
  flag; each label is one stretch of code between two lock acquisitions.  Both operations can be
  posted; the live case, where only RESERVE is, is a corollary.  `ProtocolProgress.dfy` has what the
  locks keep apart and how far a thread gets on its own.
* `Regions*.dfy`: region structs, the lists of the root struct, the backing file and the address
  space of every process, on top of the cleanup log.  One invariant holds in every run, those with
  half-done imports included.  `RegionsLimits.dfy` gives exact conditions where a guarantee ends,
  `RegionsRuns.dfy` runs that cross them (put together with `RegionsStages.dfy`), and
  `RegionsSharing.dfy` what two processes can rely on nevertheless; `RegionsAccess.dfy` says which
  touches are served, `RegionsAccounts.dfy` keeps the books of bytes, file and structs.
* `RootStruct.dfy`: the same state as the code has it, lists threaded through the structs by `next`
  pointers; each method follows the code and is proved to be the step that runs are made of.
* `Heap*.dfy`, `Allocator.dfy`: `sc_malloc` and `sc_free`, first on chunks, then on 8-byte words
  where header, footer and list node share memory; the class works on the words and is proved
  against the chunks.  `HeapPages.dfy` puts the allocator on top of the region manager;
  `HeapRuns.dfy` has a run of the two together.
* `Mappings.dfy`, `Revocation.dfy`: derived mappings and `sc_remove_mapping_recursive`.

The kernel is part of the model only as a contract: a mapping without MAP_FIXED that succeeds is
page-aligned, not at address 0, and avoids everything the process has mapped.  Outcomes of
`ftruncate` and the ranges that `mmap` grants are parameters.

## Where the code falls short of its promises

* A process that departs while its background thread waits for the root lock in order to clean up
  takes the clean-up with it.  The head of the log then stays for ever, no memory can be mapped
  any more and, with a reservation pending, nobody can join
  (`StrandedExactlyWhenCleanerLost`, `DepartureStrandsTheLog`, `RegionsTheorems.StrandedForever`).
* A join that meets a pending reservation has already raised `proc_count`.  Every later log entry
  waits for a process that does not exist (`RefusedJoinPoisonsTheLog`, `AckAccounting`).
* A joiner takes the one preallocated process struct before it knows that it can join.  If it then
  fails or is refused nobody ever joins again (`FailedJoinClosesTheDoor`, `ClosedForever`); only a
  conflict on the root page is noticed in time.
* Both imports list the new region before it is mapped.  If the file cannot be extended, or a map
  fails, the range is active while the importer still has private memory there
  (`AgreementExactlyWhileImportsAreWhole`).  After that the handler may overwrite private memory
  (`HandlerMayOverwrite`); a process that joins may have a map past the end of the file, where a
  touch is fatal because only SEGV and INT are handled (`TouchMayMissTheFile`); and
  `sc_import_protNone`, which compares with nothing, may list the range twice (`ActiveMayOverlap`).
  Listed regions only ever overlap while a single process is registered, and then nobody can join
  (`OverlapIsLonely`, `JoinFailsOnlyOnConflict`); but that process may find a half-imported region
  where the allocator gave it a block (`LoneBlockMayBeTaken`).
* `sc_import` compares with active regions only, so a range that is pending, but that no registered
  process holds, can be imported over (`PendingOverlapsExactlyWhenHit`, `PendingMayOverlap`).
* The comment at lines 334-345 of `subcontexts_control.h` has the last acknowledger allocate the
  reserved region.  In the code the poster takes the struct from the free list, and the thread in
  charge of cleaning up, which need not be the last acknowledger, lists it.  The model follows the
  code.
* The asserts on `prot` at lines 1010-1012 and 1519-1520 of `subcontexts_core.c` are always true
  because of operator precedence.  The model takes the intended values as preconditions.

## Model

| member | source | states |
|---|---|---|
| `CleanupLogTheorems.ObserverIsSilent` | archive__ancient_info_and_code/trunk/subcontexts_core.c:2115-2449 | The history kept beside the protocol state decides nothing: with any other history the same steps are possible and lead to the same protocol state. |
| `CleanupLogInvariant.AssertsHold` | archive__ancient_info_and_code/trunk/subcontexts_core.c:2187-2609 | In a state that meets the invariant, wherever a thread stands, each assert of its next step holds, those on the tail pointer included, and no null pointer is followed, whether or not the lock it waits for is free. |
| `CleanupLogInvariant.StepKeepsInv` | archive__ancient_info_and_code/trunk/subcontexts_core.c:2115-2449 | Every step of join, post, scan, acknowledge, clean-up and departure keeps the protocol invariant: log shape, positions, locks, books, pending reservation, cleaner. |
| `CleanupLogInvariant.RunKeepsInv` | archive__ancient_info_and_code/trunk/subcontexts_core.c:2115-2449 | The invariant holds in every state of every run that starts in a state meeting it, for any number of processes and any interleaving. |
| `CleanupLogTheorems.ReachableInv` | archive__ancient_info_and_code/trunk/subcontexts_core.c:232-291 | Every state reachable from a freshly formatted root struct meets the protocol invariant. |
| `CleanupLogTheorems.NoAssertFails` | archive__ancient_info_and_code/trunk/subcontexts_core.c:2187-2609 | In no run does an assert of the post, the walk, the acknowledgement or the clean-up fail, before or after the wait for a lock, and no walk runs off the list. |
| `CleanupLogTheorems.LaggardFindsItsStep` | archive__ancient_info_and_code/trunk/subcontexts_core.c:2223-2258 | Sequence numbers in the log are contiguous and end at lastSeqNum, and the step a lagging process needs next is in the log. |
| `CleanupLogTheorems.LedgerIsKept` | archive__ancient_info_and_code/trunk/subcontexts_core.c:2602-2624 | The set of processes a step counts is the set registered when it was posted, whatever happens later. |
| `CleanupLogTheorems.LedgerIsHistory` | archive__ancient_info_and_code/trunk/subcontexts_core.c:2281-2292 | A process other than the poster is counted as having acknowledged a step only if its background thread acknowledged that step at some point between post and now. |
| `CleanupLogTheorems.AckAccounting` | archive__ancient_info_and_code/trunk/subcontexts_core.c:2281-2292 | ack_targ minus ack_count is exactly the number of registered processes whose flush point is below the step, plus one for each join that was refused before the post. |
| `CleanupLogTheorems.FreedAfterEveryoneProcessed` | archive__ancient_info_and_code/trunk/subcontexts_core.c:2316-2439 | When a step is freed, every process registered when it was posted, other than the poster, has processed it in between. |
| `CleanupLogTheorems.ProcessedOnce` | archive__ancient_info_and_code/trunk/subcontexts_core.c:2281-2292 | No process acknowledges the same step twice in a run, even across departing and joining again. |
| `CleanupLogTheorems.DoneIsDownwardClosed` | archive__ancient_info_and_code/trunk/subcontexts_core.c:2422-2436 | If a step of the log is fully acknowledged, so is every earlier one. |
| `CleanupLogTheorems.OneCleaner` | archive__ancient_info_and_code/trunk/subcontexts_core.c:2281-2346 | At most one thread is in charge of cleaning up, and then the head is fully acknowledged and is the step that thread started from. |
| `CleanupLogTheorems.FreedInPrivate` | archive__ancient_info_and_code/trunk/subcontexts_core.c:2346-2439 | When the head is freed no other thread holds its lock or is blocked on it, nobody is posting, and no registered process still needs it. |
| `CleanupLogTheorems.StrandedExactlyWhenCleanerLost` | archive__ancient_info_and_code/trunk/subcontexts_core.c:1129-1151 | A fully acknowledged head has nobody in charge if and only if some process departed while its background thread was waiting for the root lock to clean up. |
| `CleanupLogTheorems.StrandedForever` | archive__ancient_info_and_code/trunk/subcontexts_core.c:2281-2287 | Once the head is fully acknowledged with nobody in charge, it stays at the head in every continuation. |
| `CleanupLogTheorems.DepartureStrandsTheLog` | archive__ancient_info_and_code/trunk/subcontexts_core.c:1129-1188 | A concrete run of two processes that ends with the log stranded and a reservation pending for ever. |
| `CleanupLogTheorems.JoinIsRefusedThenPosted` | archive__ancient_info_and_code/trunk/subcontexts_core.c:691-708 | A concrete run with a refused join and a later post, so that the poisoned log is reachable. |
| `CleanupLogTheorems.RefusedJoinPoisonsTheLog` | archive__ancient_info_and_code/trunk/subcontexts_core.c:691-708 | After one join that was refused because of a pending reservation, no step posted later is ever freed. |
| `CleanupLogTheorems.PendingIsTheOneReserve` | archive__ancient_info_and_code/trunk/subcontexts_core.c:2365-2383 | pending_reservation is set exactly while the log holds a RESERVE step; that step is the only one and names the same range. |
| `CleanupLogTheorems.LiveLogHoldsOneStep` | archive__ancient_info_and_code/trunk/subcontexts_core.c:2508-2609 | In runs that post only RESERVE, as the code does, the log never holds more than one step. |
| `CleanupLogProgress.LocksExclude` | archive__ancient_info_and_code/trunk/subcontexts_core.c:2205-2305 | In no run do two processes stand on a step that one of them has locked exclusively, nor are two at the root while one has that locked exclusively. |
| `CleanupLogProgress.BlockedThreadWaits` | archive__ancient_info_and_code/trunk/subcontexts_core.c:2223-2256 | A thread that cannot go on because a step is locked is blocked on that step, and some process stands on it. |
| `CleanupLogProgress.LaggardCanCatchUp` | archive__ancient_info_and_code/trunk/subcontexts_core.c:2171-2305 | In every run, a lagging process that the others leave alone can acknowledge every step it has not, up to lastSeqNum, and then idles or is in charge of cleaning up. |
| `CleanupLogProgress.CleanerCanFinish` | archive__ancient_info_and_code/trunk/subcontexts_core.c:2314-2440 | In every run, a cleaner that the others leave alone frees all fully acknowledged steps at the front of the log, at least one, and stops at the first that is not. |
| `Regions.FindIsFirst` | archive__ancient_info_and_code/trunk/subcontexts_core.c:990-1049 | The fault handler's walk stops at the first region in list order that contains the address. |
| `RegionsInvariant.EventKeepsInv` | archive__ancient_info_and_code/trunk/subcontexts_core.c:363-2654 | Every event (log step, join, failed join, preallocation, mmap, import whole or half done, fault, private mapping) keeps lists, ownership of pages, file extents, address spaces and pending range consistent. |
| `RegionsBoot.BootedInv` | archive__ancient_info_and_code/trunk/subcontexts_core.c:178-348 | The subcontext as sc_init leaves it, its first malloc having mapped one page, meets the invariant. |
| `RegionsBoot.ReachableInv` | archive__ancient_info_and_code/trunk/subcontexts_core.c:98-2654 | Every state of every run from a freshly initialised subcontext meets the invariant. |
| `RegionsTheorems.ReservationAgreement` | archive__ancient_info_and_code/trunk/subcontexts_core.c:596-708 | In every run, every address of every active or reserved region that is not half-imported is held by every registered process, which has nothing private there. |
| `RegionsTheorems.PrivateMemoryIsSafe` | archive__ancient_info_and_code/trunk/subcontexts_core.c:1030-1032 | In every run, a private page is replaced, other than by the process's own import or unmapping, exactly if its own fault is served from a region covering the page; and such a region was left half-imported. |
| `RegionsTheorems.RegionsAreDisjoint` | archive__ancient_info_and_code/trunk/subcontexts_core.c:1583-1597 | In every run, active and reserved regions that are not half-imported are page-aligned and pairwise share no address, although no code compares them. |
| `RegionsTheorems.PendingIsDisjoint` | archive__ancient_info_and_code/trunk/subcontexts_core.c:2546-2569 | The pending range shares no address with a region in use as soon as one registered process has acknowledged it. |
| `RegionsTheorems.TouchIsServed` | archive__ancient_info_and_code/trunk/subcontexts_core.c:984-1049 | In every run, a permitted touch of an active region, at a page that no half-imported region covers, works at once or is served by the handler from that very region, with the place of the file that lies as far behind tmpfile_offset as the page is into the region, inside the real file. |
| `RegionsTheorems.FileExtents` | archive__ancient_info_and_code/trunk/subcontexts_core.c:1552-1597 | In every run, whatever extensions failed, a file-backed region has an aligned extent within tmpfile_size, and within the real file unless its import was left half done. |
| `RegionsTheorems.ExtentsAreDisjoint` | archive__ancient_info_and_code/trunk/subcontexts_core.c:1902-1926 | In every run, two file-backed regions share no byte of the file, also after failed extensions of sc_mmap and sc_import. |
| `RegionsTheorems.StructsAreConserved` | archive__ancient_info_and_code/trunk/subcontexts_core.c:1628-1642 | In every run, every region struct of page 0 is on exactly one list, or pending, or was lost by a post that gave up; the free list never empties. |
| `RegionsTheorems.BootstrapOrder` | archive__ancient_info_and_code/trunk/subcontexts_core.c:320-348 | In every run a joiner finds two active nodes and a reserved one, the tail pointer is the true last node, and appending loses nothing. |
| `RegionsTheorems.NoJoinAssertFails` | archive__ancient_info_and_code/trunk/subcontexts_core.c:608-645 | In no run does an assert of sc_join's walk fail: list heads are not null, file extents are aligned and within tmpfile_size, and regions without access have no extent. |
| `RegionsTheorems.StrandedForever` | archive__ancient_info_and_code/trunk/subcontexts_core.c:1538-1550 | Once a departure has stranded the log no sc_mmap ever succeeds again, and if a reservation was pending nobody ever joins again. |
| `RegionsLimits.HalfIsHistory` | archive__ancient_info_and_code/trunk/subcontexts_core.c:1891-1952 | A region counts as half-imported exactly if an earlier import, with or without access, listed it and did not get done. |
| `RegionsLimits.AgreementExactlyWhileImportsAreWhole` | archive__ancient_info_and_code/trunk/subcontexts_core.c:1891-1952 | Every registered process holds every page of every listed region in all states up to k if and only if every import of a non-empty range before k got done: none of the returns 3, 4 and 5 of sc_import, nor 5 of sc_import_protNone. |
| `RegionsLimits.DisjointExactlyWhileHalfImportsAreSpared` | archive__ancient_info_and_code/trunk/subcontexts_core.c:1855-2010 | All listed regions are pairwise disjoint in all states up to k if and only if no sc_import_protNone and no adopted reservation before k covered a page of a half-imported region; sc_import, sc_mmap and joins never break it. |
| `RegionsLimits.ImportIsClear` | archive__ancient_info_and_code/trunk/subcontexts_core.c:1855-1870 | The scan of the active list is enough: whatever sc_import lists shares no page with any active or reserved region, half-imported ones included. |
| `RegionsLimits.ScanRefusesExactly` | archive__ancient_info_and_code/trunk/subcontexts_core.c:1855-1870 | Among ranges that are not empty, the scan refuses exactly those that have an address in common with an active region. |
| `RegionsLimits.PendingOverlapsExactlyWhenHit` | archive__ancient_info_and_code/trunk/subcontexts_core.c:1855-1870 | While a reservation is pending, its range is clear of all listed regions if and only if no half-imported region covered a page of it when it was posted and no import since has hit it. |
| `RegionsLimits.PendingWasPosted` | archive__ancient_info_and_code/trunk/subcontexts_core.c:2546-2609 | Every pending reservation goes back to a post whose step is still in the log. |
| `RegionsLimits.JoinFailsOnlyOnConflict` | archive__ancient_info_and_code/trunk/subcontexts_core.c:595-679 | The maps of a joining process all land where asked if and only if the listed regions are disjoint and it has nothing private on a page of one. |
| `RegionsRuns.PendingMayOverlap` | archive__ancient_info_and_code/trunk/subcontexts_core.c:1855-1870 | A concrete run in which the poster departs and the remaining process imports a region that overlaps the pending range. |
| `RegionsRuns.ActiveMayOverlap` | archive__ancient_info_and_code/trunk/subcontexts_core.c:1970-2010 | A concrete run in which a half-imported range is imported again without access, so that two active regions overlap. |
| `RegionsRuns.HandlerMayOverwrite` | archive__ancient_info_and_code/trunk/subcontexts_core.c:1030-1032 | A concrete run, with a half-done import, in which the handler's MAP_FIXED replaces private memory by pages of the file. |
| `RegionsRuns.TouchMayMissTheFile` | archive__ancient_info_and_code/trunk/subcontexts_core.c:629-630 | A concrete run in which a process joins after an import that could not extend the file, has the region mapped, and a permitted touch of it falls past the end of the file. |
| `RegionsRuns.JoinFailsAndClosesTheDoor` | archive__ancient_info_and_code/trunk/subcontexts_core.c:533-549 | A concrete run in which a failed join leaves no process struct for anybody else. |
| `RegionsSharing.OverlapIsLonely` | archive__ancient_info_and_code/trunk/subcontexts_core.c:595-708 | In every run, whenever two processes are registered, all active and reserved regions are pairwise disjoint, half-imported ones included. |
| `RegionsSharing.SharedTranslation` | archive__ancient_info_and_code/trunk/subcontexts_core.c:613-665 | In every run, two processes that have the same page mapped from the backing file see the same place of it: tmpfile_offset of an active region there plus the distance of the page from its start. |
| `RegionsSharing.PagesAreApart` | archive__ancient_info_and_code/trunk/subcontexts_core.c:1030-1032 | In every run, two different pages of the address space never show the same bytes of the file, whichever processes look at them. |
| `RegionsSharing.TouchIsServedExactly` | archive__ancient_info_and_code/trunk/subcontexts_core.c:984-1049 | While the listed regions are disjoint, a permitted touch of any active region is served from that region if and only if the process holds the page, with nothing private on it, and the real file reaches it. |
| `RegionsAccess.ActiveHasOrigin` | archive__ancient_info_and_code/trunk/subcontexts_core.c:1583-1589 | Every active region has the protection asked for by the event that listed it, or is one of the two that sc_init lists for reading and writing. |
| `RegionsAccess.FaultIsServedExactly` | archive__ancient_info_and_code/trunk/subcontexts_core.c:984-1049 | The handler serves a fault if and only if the page is held and not mapped from the file, and the first active region with the address has a protection for the access, by the table of the five pairs. |
| `RegionsAccess.FaultIsPermitted` | archive__ancient_info_and_code/trunk/subcontexts_core.c:1010-1022 | In every run, a write is served only from a region listed for reading and writing, an instruction fetch only from one listed for execution, and nothing from one imported without access. |
| `RegionsAccess.FaultMapsTheRegion` | archive__ancient_info_and_code/trunk/subcontexts_core.c:1024-1036 | Serving a fault maps all of the region, in order from its extent, for the touching process, and changes nothing else. |
| `RegionsAccess.JoinMapsEverything` | archive__ancient_info_and_code/trunk/subcontexts_core.c:605-679 | A joiner has every listed region mapped, in order from its extent or inaccessible. |
| `RegionsAccess.ImportMapsExactly` | archive__ancient_info_and_code/trunk/subcontexts_core.c:1934-1952 | An import that got done maps the range in order from the new extent; any other leaves all address spaces as they were. |
| `RegionsAccess.OnlyDoneImportsShow` | archive__ancient_info_and_code/trunk/subcontexts_core.c:1919-1966 | Only after an import that got done does the importer see the file in the range; after any other it has its private pages there. |
| `RegionsAccess.JoinWorksExactly` | archive__ancient_info_and_code/trunk/subcontexts_core.c:476-716 | In every run, a process can join if and only if no reservation is pending, a process struct lies ready, the root lock is free, the listed regions are disjoint and it has nothing of its own on any. |
| `RegionsAccess.MmapWorksExactly` | archive__ancient_info_and_code/trunk/subcontexts_core.c:1516-1597 | In every run, sc_mmap succeeds, given that the file can grow, if and only if the length is whole pages, the access read or read-write, the log empty, the root lock free, two structs are left, and the first reserved region is longer than the request. |
| `RegionsAccess.ImportWorksExactly` | archive__ancient_info_and_code/trunk/subcontexts_core.c:1835-1870 | In every run, sc_import lists a range if and only if it is whole pages of the caller's own, one process is registered, two structs are left, and the scan lets it through. |
| `RegionsAccounts.ActiveStays` | archive__ancient_info_and_code/trunk/subcontexts_core.c:1583-1613 | An active region keeps its address, length, protection and file extent through every event, and the head of the list stays the head. |
| `RegionsAccounts.BytesAreConserved` | archive__ancient_info_and_code/trunk/subcontexts_core.c:1583-1613 | In every run, shared address space equals the first grant plus everything imported and reserved: sc_mmap only moves bytes from reserved to active. |
| `RegionsAccounts.FileSizeIsHistory` | archive__ancient_info_and_code/trunk/subcontexts_core.c:1552-1557 | In every run, tmpfile_size is two pages plus all that sc_mmap and sc_import ever asked for, failed extensions included; the real length is what that sum was at the last extension that succeeded. |
| `RegionsAccounts.ExtentsFollowEachOther` | archive__ancient_info_and_code/trunk/subcontexts_core.c:1583-1589 | A new region gets that sum as tmpfile_offset, the length and protection asked for, and the front of the first reserved region or the range of the caller as address. |
| `RegionsAccounts.LeakIsHistory` | archive__ancient_info_and_code/trunk/subcontexts_core.c:2533-2553 | Every post that gave up has lost one region struct, and nothing else loses any. |
| `RegionsAccounts.PreallocFindsNone` | archive__ancient_info_and_code/trunk/subcontexts_core.c:772-776 | Whoever puts the next process struct in place finds the place empty, so the assert there holds. |
| `RegionsAccounts.FailedJoinClosesTheDoor` | archive__ancient_info_and_code/trunk/subcontexts_core.c:476-549 | A join that fails while a process struct lies ready uses it up if and only if the joiner could map the root page; otherwise nothing changes. |
| `RegionsAccounts.RefusedJoinClosesTheDoor` | archive__ancient_info_and_code/trunk/subcontexts_core.c:691-708 | A join that is refused because of a pending reservation has used up the process struct. |
| `RegionsAccounts.ClosedForever` | archive__ancient_info_and_code/trunk/subcontexts_core.c:538-543 | Once no process struct lies ready and nobody is about to provide one, no join in the rest of the run succeeds or is refused. |
| `RegionsAccounts.DoorIsClosedExactly` | archive__ancient_info_and_code/trunk/subcontexts_core.c:533-549 | Nobody can join any more if and only if a joiner with the process struct in hand has failed or been refused, or the process that owed the next struct has departed. |
| `StructLists.ListIsUnique` | archive__ancient_info_and_code/trunk/subcontexts_control.h:80-110 | The `next` pointers determine the list that a head stands for. |
| `StructLists.AppendList` | archive__ancient_info_and_code/trunk/subcontexts_core.c:1599-1613 | Writing the tail's `next` appends behind the tail, and drops whatever followed it. |
| `StructLists.InsertList` | archive__ancient_info_and_code/trunk/subcontexts_core.c:2005-2008 | The two writes behind the head insert there and lose nothing. |
| `StructLists.InsertNeedsTwoNodes` | archive__ancient_info_and_code/trunk/subcontexts_core.c:2005-2008 | On the pointers: inserting behind the head and then appending through the untouched tail pointer keeps both structs if and only if the list had at least two nodes. |
| `RootStructs.RootStruct.Format` | archive__ancient_info_and_code/trunk/subcontexts_core.c:178-291 | Formatting page 0, with the free list linked up in a loop, leaves exactly the struct that the runs start from. |
| `RootStructs.RootStruct.GetFreeRegion` | archive__ancient_info_and_code/trunk/subcontexts_core.c:1628-1642 | Following and clearing `next`, takes the first struct of the free list; all other lists stay as they are. |
| `RootStructs.RootStruct.AppendTail` | archive__ancient_info_and_code/trunk/subcontexts_core.c:1599-1613 | The writes through the tail pointer refine the append that the runs are made of, wherever the tail points. |
| `RootStructs.RootStruct.InsertBehindHead` | archive__ancient_info_and_code/trunk/subcontexts_core.c:2005-2008 | The writes behind the head refine the insert that the runs are made of, in which the position of the tail moves though its pointer does not. |
| `RootStructs.RootStruct.Mmap` | archive__ancient_info_and_code/trunk/subcontexts_core.c:1552-1613 | Cuts the range from the front of the first reserved region, appends the new region and the file extent; a failed extension only bumps the recorded size; both are what the events of runs leave. |
| `RootStructs.RootStruct.Overlaps` | archive__ancient_info_and_code/trunk/subcontexts_core.c:1855-1870 | The walk along `next` answers true exactly if an active region intersects the range. |
| `RootStructs.RootStruct.Import` | archive__ancient_info_and_code/trunk/subcontexts_core.c:1855-1967 | Literal return codes: 1 exactly for a duplicate, which changes nothing; 0 exactly if the region is listed and nothing is left half done; 3 exactly if it is listed and the file is as long as before; 4 and 5 if it is listed, left half done, and the file reaches it. The state is the one the events of runs leave. |
| `RootStructs.RootStruct.ImportProtNone` | archive__ancient_info_and_code/trunk/subcontexts_core.c:1995-2030 | Pops a struct and links it behind the head; return code and state in both outcomes are the ones the runs go on with. |
| `RootStructs.RootStruct.Propose` | archive__ancient_info_and_code/trunk/subcontexts_core.c:2533-2569 | Pops a struct, which becomes the pending reservation and is on no list. |
| `RootStructs.RootStruct.Adopt` | archive__ancient_info_and_code/trunk/subcontexts_core.c:2365-2383 | Links the pending struct in front of the reserved list; all other lists stay as they are. |
| `RootStructs.RootStruct.FindRegion` | archive__ancient_info_and_code/trunk/subcontexts_core.c:990-1049 | The handler's walk along `next` returns the first active region that contains the address, or none. |
| `RootStructs.RootStruct.MapList` | archive__ancient_info_and_code/trunk/subcontexts_core.c:605-679 | One walk along `next` maps all regions of a list, or fails at the first that is not free in the joiner. |
| `RootStructs.RootStruct.MapForJoin` | archive__ancient_info_and_code/trunk/subcontexts_core.c:476-679 | Maps the root page first and changes nothing if that fails; then takes the process struct; then the two walks compute the joiner's address space, or fail as soon as a map lands elsewhere. |
| `Heaps.Sizes` | archive__ancient_info_and_code/trunk/subcontexts_core.c:1257-1264 | The rounded size is 8-aligned, leaves room for header, request and footer with less than 8 bytes of slack, and the pages asked for cover both splits. |
| `HeapInvariant.MallocKeepsWf` | archive__ancient_info_and_code/trunk/subcontexts_core.c:1299-1433 | A malloc, with or without new pages, keeps the extents tiled by aligned chunks and the list exact. |
| `HeapInvariant.ReleaseKeepsWf` | archive__ancient_info_and_code/trunk/subcontexts_core.c:1484-1503 | A free keeps the extents tiled and the list exact. |
| `HeapTheorems.Tiling` | archive__ancient_info_and_code/trunk/subcontexts_core.c:1335-1404 | An address lies in an extent if and only if it lies in a chunk of it, in exactly one; each extent starts with one page head of 24 bytes that is never allocated. |
| `HeapTheorems.HeapStaysTiled` | archive__ancient_info_and_code/trunk/subcontexts_core.c:1229-1507 | After any sequence of mallocs and frees from an empty heap the extents are exactly tiled and page heads are bare. |
| `HeapTheorems.MallocLaw` | archive__ancient_info_and_code/trunk/subcontexts_core.c:1229-1437 | Between calls malloc fails exactly if no free chunk other than a page head has length (HEADER + size + 7) / 8 * 8 + FOOTER and no pages come; asks for pages exactly if none has; else adds exactly one block, 8-aligned, large enough, exceeding the rounded request by less than 24 bytes. |
| `HeapTheorems.MallocServesExactly` | archive__ancient_info_and_code/trunk/subcontexts_core.c:1274-1293 | Without new pages malloc succeeds if and only if some listed chunk that is no page head is long enough, in plain numbers. |
| `HeapTheorems.FirstLongEnoughIsTaken` | archive__ancient_info_and_code/trunk/subcontexts_core.c:1274-1293 | The block is carved from the front of the first such chunk in list order. |
| `HeapTheorems.FreedBlockIsReused` | archive__ancient_info_and_code/trunk/subcontexts_core.c:1439-1507 | A block that was just freed is handed out again, at the same address, by the next request it has room for. |
| `HeapTheorems.MallocKeepsOrder` | archive__ancient_info_and_code/trunk/subcontexts_core.c:1360-1433 | What is left of the chunk stays where the chunk was in the list, and the list is otherwise untouched. |
| `HeapTheorems.GrowthOrder` | archive__ancient_info_and_code/trunk/subcontexts_core.c:1326-1433 | New pages come first in the list: their page head, then what the block left over. |
| `HeapTheorems.FreshExtentServes` | archive__ancient_info_and_code/trunk/subcontexts_core.c:1299-1409 | A fresh extent always covers both splits. |
| `HeapTheorems.PageHeadNeverFits` | archive__ancient_info_and_code/trunk/subcontexts_core.c:1360-1385 | Between calls no page head satisfies a request. |
| `HeapTheorems.FreeUndoesMalloc` | archive__ancient_info_and_code/trunk/subcontexts_core.c:1439-1507 | A free right after a malloc restores the set of blocks with their lengths. |
| `HeapMemory.SplitKeepsRep` | archive__ancient_info_and_code/trunk/subcontexts_core.c:1360-1404 | The five word writes of a split turn memory that represents a heap into memory that represents the split heap. |
| `HeapMemory.TakeKeepsRep` | archive__ancient_info_and_code/trunk/subcontexts_core.c:1421-1433 | Unlinking and stamping header and footer represents the heap with that chunk live, although header, footer and list node share words. |
| `HeapMemory.ReleaseKeepsRep` | archive__ancient_info_and_code/trunk/subcontexts_core.c:1491-1503 | Overwriting the header with a list node represents the heap with the block given back. |
| `HeapMemory.GrowKeepsRep` | archive__ancient_info_and_code/trunk/subcontexts_core.c:1326-1342 | Writing the node of fresh pages represents the heap with that extent. |
| `HeapMemory.TakeSparesBlocks` | archive__ancient_info_and_code/trunk/subcontexts_core.c:1421-1433 | Taking a chunk out changes no word of any live block. |
| `HeapMemory.ClientKeepsRep` | archive__ancient_info_and_code/trunk/subcontexts_control.h:392-425 | A client that writes inside its block disturbs no header, footer or list node. |
| `HeapMemory.FreeChunkHasNoMagic` | archive__ancient_info_and_code/trunk/subcontexts_control.h:392-425 | Where the header magic would be, a free chunk holds an 8-aligned pointer or null, which is never the magic. |
| `HeapMemory.MagicParts` | archive__ancient_info_and_code/trunk/subcontexts_control.h:50-61 | The magic macro packs kind and version, and both can be read back; the two magics of the allocator are the numbers that the macro gives. |
| `Allocators.Allocator.Scan` | archive__ancient_info_and_code/trunk/subcontexts_core.c:1274-1293 | The loop over raw words finds the first chunk that is long enough, in plain numbers, or the end of the list, and the slot that points to it. |
| `Allocators.Allocator.AddPages` | archive__ancient_info_and_code/trunk/subcontexts_core.c:1326-1342 | New pages become one chunk at the front of the list; blocks are untouched. |
| `Allocators.Allocator.SplitAt` | archive__ancient_info_and_code/trunk/subcontexts_core.c:1360-1404 | Cuts a node in two in place; blocks are untouched. |
| `Allocators.Allocator.TakeOut` | archive__ancient_info_and_code/trunk/subcontexts_core.c:1421-1433 | Unlinks a node through its predecessor's slot and makes it a block; other blocks are untouched. |
| `Allocators.Allocator.Malloc` | archive__ancient_info_and_code/trunk/subcontexts_core.c:1229-1437 | The word-level malloc is the abstract malloc, fails exactly if no free chunk is long enough and no pages come, and leaves every word of every other block unchanged. |
| `Allocators.Allocator.Free` | archive__ancient_info_and_code/trunk/subcontexts_core.c:1439-1507 | Succeeds exactly if the pointer is aligned and both magics are in place, and then turns the header into the first list node and changes no other word; a live block is thereby removed and nothing else; a chunk on the free list takes the corruption exit; failure changes nothing. |
| `Allocators.Allocator.Write` | archive__ancient_info_and_code/trunk/subcontexts_control.h:392-425 | A client write inside its block keeps the allocator valid and changes one word. |
| `HeapPages.MmapGrants` | archive__ancient_info_and_code/trunk/subcontexts_core.c:1318-1342 | What sc_mmap returns to the allocator is page-aligned and disjoint from all its earlier extents, and is an active region. |
| `HeapPages.HeapOverRegions` | archive__ancient_info_and_code/trunk/subcontexts_core.c:1229-1624 | In every run that mixes mallocs, frees and all other events, half-done imports included, the heap stays tiled and every extent is an active read-write region. |
| `HeapPages.BlocksAreShared` | archive__ancient_info_and_code/trunk/subcontexts_core.c:984-1049 | In every run, every byte of every block can be read and written by every registered process, at the same address and from the same place of the backing file, if two processes are registered or no half-imported region covers the byte. |
| `HeapPages.BlockBytesAreApart` | archive__ancient_info_and_code/trunk/subcontexts_core.c:984-1049 | Two different bytes of blocks, of one block or of two, are served from two different bytes of the file. |
| `HeapRuns.LoneBlockMayBeTaken` | archive__ancient_info_and_code/trunk/subcontexts_core.c:984-1049 | A concrete run in which a process that is alone has a block on a page that a half-imported region covers, and the block is served from no region in use. |
| `Mappings.TwoDeletes` | archive__ancient_info_and_code/while_at_IBM/one_version_of_the_sc_structures.txt:181-184 | Deleting both list elements of a mapping removes exactly that mapping from a list, in whatever order and number they sit on it. |
| `Mappings.RestIsWf` | archive__ancient_info_and_code/while_at_IBM/one_version_of_the_sc_structures.txt:161-226 | Taking a dependency-closed set of mappings out leaves a net in which every indirect mapping still has two recorded parents. |
| `Mappings.SurvivorsAreDerivable` | archive__ancient_info_and_code/while_at_IBM/one_version_of_the_sc_structures.txt:59-93 | Every survivor that was derivable is derivable by the same rules from surviving mappings alone, so from surviving direct mappings. |
| `Mappings.DependentIffUnderivable` | archive__ancient_info_and_code/while_at_IBM/one_version_of_the_sc_structures.txt:59-93 | A mapping depends on the removed one if and only if its recorded derivation fails without it: revocation removes no more and no less. |
| `Mappings.DerivableIsGrounded` | archive__ancient_info_and_code/while_at_IBM/one_version_of_the_sc_structures.txt:59-93 | Whatever a derivable mapping allows is granted by a chain of direct mappings from its subcontext to its target whose last one grants that access. |
| `Mappings.SurvivorsAreGrounded` | archive__ancient_info_and_code/while_at_IBM/one_version_of_the_sc_structures.txt:59-93 | After a revocation that chain consists of surviving direct mappings. |
| `Revocation.RoundKeepsLoop` | archive__ancient_info_and_code/while_at_IBM/one_version_of_the_sc_structures.txt:198-222 | One round of the worklist keeps its invariant and makes progress, even if both elements of a mapping are on the worklist. |
| `Revocation.DoneIsExact` | archive__ancient_info_and_code/while_at_IBM/one_version_of_the_sc_structures.txt:198-222 | When the worklist is empty the removed mappings are exactly the transitive dependents, and the level of each is the length of its shortest derivation. |
| `Revocation.MappingNet.Detach` | archive__ancient_info_and_code/while_at_IBM/one_version_of_the_sc_structures.txt:205-206 | Both elements leave their lists, a dependency list or the worklist. |
| `Revocation.MappingNet.Drain` | archive__ancient_info_and_code/while_at_IBM/one_version_of_the_sc_structures.txt:198-222 | The loop terminates with an empty worklist; what was removed and freed is what the invariant says. |
| `Revocation.MappingNet.RemoveRecursive` | archive__ancient_info_and_code/while_at_IBM/one_version_of_the_sc_structures.txt:161-226 | Removes and frees each transitive dependent exactly once and nothing else, nearest first; the given mapping is removed first and freed last; the rest of the net is as before without them; of the mappings that were derivable exactly those go whose derivation fails without the given one, and all others stay derivable from what is left. |

## Left out

- Deadlock, fairness and the lock and futex code: the model has the runs that the locks allow; that a thread gets on is proved only while the others leave it alone.
- Sequence numbers and sizes are unbounded; wrap-around of 64-bit numbers is not modelled.
- Log steps are identified by their sequence numbers. The code compares addresses, so a step freed and reused during a scan could be mistaken for the first one.
- The handler for ABORT is unwritten in the code; the model acknowledges it without effect, so that logs of several steps occur. Reservations that are aborted by setting their length to zero do not occur.
- Departure is one indivisible step, taken with the background thread idle or waiting for the root lock; a process that dies while its thread holds a step's lock is not modelled.
- The scan of the lists by a joiner and its registration are one step; the code releases the root lock in between.
- Branches that end in TODO(), exit() or a failed assert stop their thread: growth of the region structs, exhaustion of the first reserved region, a reservation that lands elsewhere in some process.
- Paths that return with the root lock still held, such as returns 1, 4 and 5 of sc_import: the model has the state they leave and goes on as if the lock had been released, which only adds runs.
- The imports take the caller's claim, that the range is mapped privately by the process, as a precondition (AllPrivate); nothing is said of an import without it.
- A touch past the end of the file ends the process; that end is not an event.
- RegionsTheorems.TouchIsServed: says nothing of a page that a half-imported region covers, because the handler may serve it from that region (RegionsSharing.TouchIsServedExactly).
- Dependency lists are sequences of elements; their prev and next pointers are not modelled. Region lists and the free list of the allocator are.
- Allocators.Allocator.Free: promises no outcome for an aligned pointer that is no chunk, since that depends on what clients wrote there.
- Per-region locks, the recursion guard of the fault handler, unmapping of shared ranges by clients, and the contents of imported pages.
- A malloc that maps pages is one step together with its sc_mmap; the process structs and log steps that the core itself allocates are ordinary blocks.
- The search that creates indirect mappings: any net in which each indirect mapping has two recorded parents is covered.
- Signal registration, stacks, thread creation, dumps and file opening.
- The ipc and registry files, the drivers, `src/` and `micro_experiments/`: unfinished, or they would only add easy members.
