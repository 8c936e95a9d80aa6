# Verified model of the xv6-riscv kernel with a multilevel feedback queue

A Dafny 4.11 model of the parts of this teaching kernel whose correctness is not visible in any single function, with
proofs of what they are for. `dafny verify dfyconfig.toml` checks everything.

| file | source | what is proved |
|---|---|---|
| `Log.dfy` | kernel/log.c | a commit cut short by a crash after any of its block writes, and any crashes of the recoveries that follow, leave all of the transaction or none of it |
| `Reservation.dfy`, `LogProtocol.dfy` | kernel/log.c, kernel/bio.c | the same for concurrent operations that share the log and the buffer cache: admission, pinning, write-ahead, crash safety in every reachable state, and exactly when a full log panics |
| `WholeOperations.dfy`, `CommitProgress.dfy` | kernel/log.c, kernel/bio.c | whatever a crash leaves is the contents of a moment when no operation was open; a commit that has started can be finished, and exactly when it cannot |
| `BufferCache.dfy` | kernel/bio.c | the doubly linked list stays a ring of all buffers in order of release; one buffer per block; the buffer recycled is the one released longest ago |
| `CacheRefines.dfy` | kernel/bio.c | that list refines the slots of the log protocol |
| `BlockMap.dfy`, `FileContent.dfy`, `FileSteps.dfy`, `FileSystem.dfy` | kernel/fs.c, kernel/file.c | every marked block is held by one slot of one inode; files read as byte sequences; a write changes its own bytes of its own file; it logs what it changes and fits its reservation; its count is exact |
| `FileImage.dfy`, `FileCrash.dfy` | kernel/fs.h, kernel/file.c, kernel/log.c | after a crash anywhere in a long write, the file read off the recovered disk has each chunk whole or not at all |
| `PageMap.dfy`, `PageSteps.dfy`, `Vm.dfy` | kernel/kalloc.c, kernel/vm.c, kernel/proc.c | page tables act as a finite map; every page is free, owned once or handed out; fork's copy is faithful and its failure leaves nothing behind; freeing an address space never panics and leaves nothing |
| `Virtio.dfy` | kernel/virtio_disk.c | descriptors are free or in one chain; the device reads each request as it was submitted; no ring entry is overwritten, across 16-bit wrap-around |
| `SleepWakeup.dfy` | kernel/proc.c, kernel/sleeplock.c | no wakeup is lost in any interleaving; sleep locks exclude each other |
| `ProcTree.dfy` | kernel/proc.c | in every interleaving of fork, exit and wait, nobody's parent is dead, every exited process is reaped at most once, and nobody waits in vain or over a child that has exited |
| `Mlfq.dfy` | kernel/proc.c, kernel/trap.c | the scheduler picks the least level, round-robin; nobody waits longer than a bound; who is demoted and when a promotion comes, exactly |
| `Umalloc.dfy` | user/umalloc.c | the free list is ordered, disjoint and coalesced; units are conserved; live blocks are untouched |
| `Grep.dfy` | user/grep.c | the matcher accepts exactly the language of its pattern |

Code that updates fields becomes a class whose methods follow the code, with a ghost record of what the fields mean
and an invariant that ties the two together. A protocol between processes becomes a state machine whose events are what
one process does under one lock; its theorems are about every run. Panics are outcomes, and the contracts say exactly
when they happen or that they do not.

## Where the code and its documentation disagree

The model follows the code.

- The repository's README (lines 18 and 153-154) promises demotion when a process uses up its time slice. Timer
  interrupts preempt through `yield`, which sets `voluntarily_yielded`, so the check in `scheduler` spares every
  preempted process. `Mlfq.ExpiredSliceKeepsLevel` is a run from boot that shows it; `Mlfq.DemotedExactly` gives the
  exact condition of a demotion, and `Mlfq.NoLiveProcessIsDemoted` its consequence: from boot on, every process that has
  not exited is at level 0. So nobody is ever promoted either (`Mlfq.NoPromotion`), and a ready process is passed over
  fewer than NPROC times (`Mlfq.BootBoundedWaiting`).
- The same README (lines 155-156) promises promotion after a number of ticks. `wait_timer_ticks` counts passes of the
  scheduler's loop, and the limit is PROMO_THRESHOLD times the slice of the level. `Mlfq.PromotedExactly` says at which
  pass a promotion comes, and `Mlfq.BoundedWaiting` counts passes.
- The comment above `writei` (kernel/fs.c:525-527) speaks of the number of bytes successfully written. A copy from
  user memory that faults part way has already changed bytes of the buffer, which is not logged. The count is the bytes
  read cut back to the last block boundary of the file (`FileSteps.Counted`, `FileSystem.Volume.Writei`). By
  `FileSteps.TornExactly` the file reads as the count suggests, for all contents and sources, if and only if nothing
  faults, or the fault is at the first byte or on a block boundary, or the stray bytes lie beyond the end of the file.
  `FileSystem.TornCall` is a call that returns 0 and has changed the file's only byte. Such a buffer breaks the rule, on
  which `LogProtocol` relies, that what is modified is logged before it is released.
- `log_write` checks for room before it looks for the block in the header, so it panics on a full log even for a
  block that is already in it. `LogProtocol.LogWritePanics` gives the exact condition: an operation within its reservation
  panics if and only if the log is full, and then its block is in the log already and every open operation has added
  MAXOPBLOCKS blocks. `LogProtocol.PanicReached` is a run of three operations that gets there, on every machine with
  LOGBLOCKS home blocks and as many buffers; with fewer of either no run does (`LogProtocol.NeverPanics`). An operation
  that has added fewer blocks finds room (`LogProtocol.LogWriteHasRoom`).
- kernel/param.h:10-11 makes the cache as large as the log, and write_log needs a buffer for each log block while every
  logged block is pinned in one of its own. `CommitProgress.CommitFinishes` shows that a commit can be finished if fewer
  blocks are logged than there are buffers; `CommitProgress.CommitStuck` that otherwise bget finds no buffer and panics;
  `CommitProgress.StuckReached` that three operations within their reservations get there with the kernel's sizes.

## Model

| member | source | states |
|---|---|---|
| Log.HeadRoundTrip | kernel/log.c:87-115 | the header block written for a list of block numbers reads back as that list |
| Log.LogDevice.constructor | kernel/log.c:53-63 | initlog recovers any sound disk, with recovery's writes and no others, and starts with no operation open |
| Log.LogDevice.Bwrite | kernel/bio.c:106-112 | one block write, the unit at which a crash may come, appended to the trace; panics exactly if the caller does not hold the buffer |
| Log.LogDevice.WriteLog | kernel/log.c:179-192 | exactly the cached contents of the logged blocks go to the log blocks, in order |
| Log.LogDevice.WriteHead | kernel/log.c:103-115 | one write turns the header into the encoding of the list and leaves its other words |
| Log.LogDevice.ReadHead | kernel/log.c:87-98 | the list the header on disk encodes |
| Log.LogDevice.InstallTrans | kernel/log.c:66-84 | the log blocks are copied home in order, and buffers are unpinned only when not recovering |
| Log.LogDevice.RecoverFromLog | kernel/log.c:117-124 | recovery issues its writes in order and ends with an empty log |
| Log.LogDevice.Commit | kernel/log.c:194-204 | commit issues exactly log, header, home and clearing writes, in that order, and ends with an empty log |
| Log.LogDevice.BeginOp | kernel/log.c:127-143 | whoever is admitted has room for MAXOPBLOCKS blocks of its own, and every operation open before keeps the room it has left |
| Log.LogDevice.EndOp | kernel/log.c:147-165 | an open operation ends without the panic, which no log in order reaches, and becomes the committer exactly if no other is open |
| Log.LogDevice.EndCommit | kernel/log.c:167-175 | the committer brings every logged block home and leaves an empty log, open for operations again |
| Log.LogDevice.Operation | kernel/log.c:127-236 | an operation alone in the log with at most MAXOPBLOCKS blocks is admitted, does not panic, and has its blocks home when it is over |
| Log.LogDevice.LogWrite | kernel/log.c:215-236 | the block joins the list once, its contents are cached; it panics exactly on a full log or outside a transaction; within a reservation only when the block is listed already and all reservations are used up |
| Log.WholeInstall | kernel/log.c:66-84 | installing all log blocks gives each home block its last logged contents and touches nothing else |
| Log.PartialInstall | kernel/log.c:66-84 | the same for any prefix of the installing writes; the log itself is untouched |
| Log.RecoverOutcome | kernel/log.c:117-124 | what recovery leaves: an empty log, and home blocks as header and log dictate |
| Log.RecoveryCrash | kernel/log.c:117-124 | a recovery cut after any of its writes and run again ends in the same home blocks |
| Log.CommitCrash | kernel/log.c:194-204 | after any prefix of a commit's writes, recovery gives nothing of the transaction up to the header write and all of it from there on |
| Log.CommitAtomic | kernel/log.c:194-204 | the same with any number of further crashes inside the recoveries |
| Log.CommitComplete | kernel/log.c:194-204 | a commit that runs to its end needs no recovery |
| Log.CommitIsRecovery | kernel/log.c:194-204 | finishing a commit and recovering from its commit point do the same to the disk |
| LogProtocol.BeginKeeps | kernel/log.c:127-143 | admission keeps the log's quota |
| LogProtocol.GetKeeps | kernel/bio.c:58-89 | finding or recycling a slot keeps blocks unique, counts right and pinned blocks in place |
| LogProtocol.LoadKeeps | kernel/bio.c:92-103 | a slot read from disk agrees with the disk, and is never one whose logged contents are pending |
| LogProtocol.ModifyKeeps | kernel/log.c:206-214 | a locked buffer of an open operation may change before it is logged without disturbing any other |
| LogProtocol.LogWriteKeeps | kernel/log.c:215-236 | logging a block, new or absorbed, pins it once and uses the quota of its operation |
| LogProtocol.DropKeeps | kernel/bio.c:116-137 | giving up a reference keeps counts equal to users plus pins |
| LogProtocol.EndKeeps | kernel/log.c:147-176 | the commit starts exactly when the last operation ends, with nothing modified and unlogged; an idle log in which nobody is has nothing logged |
| LogProtocol.WriteLogKeeps | kernel/log.c:179-192 | one log block more holds what its transaction last logged |
| LogProtocol.WriteHeadKeeps | kernel/log.c:103-115 | the header write alone moves the disk's meaning from the old contents to the transaction's |
| LogProtocol.InstallKeeps | kernel/log.c:66-84 | installing and unpinning one block keeps disk, cache and log in agreement |
| LogProtocol.ClearKeeps | kernel/log.c:194-204 | erasing the header ends the transaction with disk and cache agreeing |
| LogProtocol.CrashKeeps | kernel/log.c:53-63 | a crash with any further crashes in recovery leads back to an initial state |
| LogProtocol.StepKeeps | kernel/log.c:66-236 | every event of every process keeps the invariant of log and cache |
| LogProtocol.RunKeeps | kernel/log.c:66-236 | the invariant holds in every state of every run with crashes |
| LogProtocol.CrashSafe | kernel/log.c:117-124 | in every reachable state recovery restores exactly the home blocks of the last commit |
| LogProtocol.LogWriteHasRoom | kernel/log.c:215-236 | an operation below its maximum finds room whatever the others do |
| LogProtocol.LogWritePanics | kernel/log.c:221-222 | in every reachable state log_write within a reservation panics if and only if the log is full, and then the block is in it and every open operation has added MAXOPBLOCKS |
| LogProtocol.PanicReached | kernel/log.c:221-222 | on every recovered disk with at least LOGBLOCKS blocks outside the log, and with at least as many buffers, a run of three operations reaches that panic |
| LogProtocol.NeverPanics | kernel/log.c:221-222 | with fewer blocks or fewer buffers no run reaches it |
| LogProtocol.CountsPositive | kernel/bio.c:116-151 | a used or pinned slot has a positive count, so no decrement goes below zero |
| LogProtocol.PinHolds | kernel/log.c:215-236 | no event moves a logged block out of its slot before it is installed |
| LogProtocol.LogsLatest | kernel/log.c:179-192 | what write_log copies is what log_write was last given, and every operation of the transaction has ended |
| Reservation.QuotaBegin | kernel/log.c:134 | begin_op's test is what it takes to keep a full reservation for one operation more |
| Reservation.QuotaFull | kernel/log.c:134 | under that test the log never overflows and is full only when every open operation has used up its reservation |
| WholeOperations.BufferShows | kernel/bio.c:92-103 | a buffer nobody is modifying shows the last commit with what has been logged since |
| WholeOperations.LogicalStep | kernel/log.c:66-236 | of all steps only log_write changes what the cache shows, and only its own block |
| WholeOperations.CommittedStep | kernel/log.c:194-204 | what a recovery would restore changes only when no operation is open, and then to what the cache shows |
| WholeOperations.RecoversQuiescent | kernel/log.c:117-204 | after a crash anywhere, with more in the recoveries, the home blocks are those of a moment when no operation was open |
| WholeOperations.RecoversImage | kernel/log.c:117-236 | whatever other processes log, as long as they leave a writer's words alone, a prefix of the writer's operations is recovered, each whole; all that have ended once nothing waits for a commit, in particular whenever the log is idle and no operation is open |
| WholeOperations.WithinReservation | kernel/log.c:206-236 | a writer whose operations change at most MAXOPBLOCKS blocks may log each of them |
| CommitProgress.CommitFinishes | kernel/log.c:165-204 | a commit that has started can run to its end if fewer blocks are logged than there are buffers, and then the disk holds what the cache has shown |
| CommitProgress.CommitStuck | kernel/bio.c:58-89 | with as many blocks logged as buffers, bget finds none for the next log block |
| CommitProgress.EmptyCommitWritesNothing | kernel/log.c:194-204 | a transaction that has logged nothing writes nothing |
| CommitProgress.StuckReached | kernel/param.h:9-11 | with the kernel's sizes three operations within their reservations reach that state |
| CommitProgress.WriteReachesDisk | kernel/log.c:127-236 | what an operation alone in the log writes can be brought home, and no other home block changes |
| CacheRefines.BgetGets | kernel/bio.c:58-89 | what bget does to the linked list is a step of the protocol; it panics only if no such step is possible |
| CacheRefines.BrelseDrops | kernel/bio.c:116-137 | so is what brelse does |
| BufferCache.UnlinkRing | kernel/bio.c:128-129 | the two assignments take a node out of the ring |
| BufferCache.InsertRing | kernel/bio.c:130-133 | the four assignments put a node behind the head |
| BufferCache.ToFrontRecency | kernel/bio.c:116-137 | moving a released buffer to the front keeps the list in order of last release |
| BufferCache.Cache.constructor | kernel/bio.c:36-53 | binit links all buffers into one ring |
| BufferCache.Cache.Brelse | kernel/bio.c:116-137 | panics exactly if the caller does not hold the buffer; else the count falls by one, and at zero, and only then, the buffer becomes the most recently released |
| BufferCache.Cache.Relink | kernel/bio.c:126-134 | the six pointer assignments move one buffer to the front of a ring that still has every buffer once |
| BufferCache.Cache.Bpin | kernel/bio.c:139-144 | one reference more, ring and order kept |
| BufferCache.Cache.Bunpin | kernel/bio.c:146-151 | one reference less, and the buffer's place in the list kept |
| BufferCache.Cache.Find | kernel/bio.c:65-73 | the buffer that holds the block, if any does |
| BufferCache.Cache.Oldest | kernel/bio.c:77-87 | among unused buffers the one released longest ago, if any is unused |
| BufferCache.Cache.Bget | kernel/bio.c:58-89 | a cached block is found; else the least recently released unused buffer is recycled; none only if all are in use |
| BlockMap.BitSet | kernel/fs.c:76-78 | setting or clearing one bit of the bitmap by its mask changes that bit only |
| BlockMap.MaskIs | kernel/fs.c:76 | the mask of bit k is two to the k |
| BlockMap.MarkUsed | kernel/fs.c:76-78 | marking a block adds it, and it alone, to the marked blocks |
| BlockMap.MarkFree | kernel/fs.c:92-106 | clearing a mark removes that block alone |
| BlockMap.WordPut | kernel/fs.c:430-436 | storing an address into an indirect block changes that entry only, and it reads back |
| BlockMap.AttachRootKeeps | kernel/fs.c:411-429 | a free block recorded in an inode keeps block ownership |
| BlockMap.AttachEntryKeeps | kernel/fs.c:430-438 | a free block recorded in an indirect block keeps block ownership |
| BlockMap.RootExtends | kernel/fs.c:411-429 | it changes no other slot and no data of any file |
| BlockMap.EntryExtends | kernel/fs.c:430-438 | the same for an indirect entry |
| BlockMap.RootImage | mkfs/mkfs.c:108-172 | an image whose root directory holds the first data block is in order |
| FileContent.ChunkRead | kernel/fs.c:505-517 | the part of a block that readi copies is that part of the file, and is mapped |
| FileContent.PutByte | kernel/fs.c:539-551 | a chunk written into a block changes those bytes of the file and no others |
| FileContent.WrotePut | kernel/fs.c:539-551 | chunk after chunk, the bytes written so far are in the file and no other file has changed |
| FileContent.ResizeKeeps | kernel/fs.c:553-554 | growing the file to the end of the write leaves no hole |
| FileContent.WroteContent | kernel/fs.c:528-562 | the file reads as before with the data laid over it; other files read as before |
| FileSteps.BegunIsMapped | kernel/fs.c:534-540 | a block begun before the write's offset is mapped already, so an unaligned write allocates one block less |
| FileSteps.AccountBmap | kernel/fs.c:405-444 | what one block of a write adds to the log, the indirect block being counted once |
| FileSteps.NextTurn | kernel/fs.c:539-551 | after each block of a write the logged blocks are within two for each block, less one if the write is unaligned |
| FileSteps.ChunkFits | kernel/file.c:149-172 | a chunk of filewrite's size, at any offset and on a volume of any size, fits MAXOPBLOCKS |
| FileSteps.WrittenWhole | kernel/file.c:149-173 | a readable source and a range a file may have are written to the end, unless the disk is full |
| FileSteps.Progressed | kernel/file.c:149-173 | what filewrite writes on a disk with room, chunk by chunk, faults and the largest file size included |
| FileSteps.WriteTwice | kernel/file.c:149-172 | two writes, the second where the first ended, are one |
| FileSteps.ReadBack | kernel/fs.c:494-562 | what was written is what is read, and all other bytes are kept |
| FileSteps.Counted | kernel/fs.c:539-548 | the count after a fault, no more than was read, and all of it exactly if nothing faults or the fault is at the first byte or on a block boundary |
| FileSteps.FaultCounts | kernel/fs.c:539-548 | where the loop stands when a copy faults is that count |
| FileSteps.TakesFew | kernel/fs.c:405-444 | a write takes at most one block for each block it spans and one more, so it fails only with no more free blocks than that |
| FileSteps.TornExactly | kernel/fs.c:545-548 | for all contents and sources of given sizes: the file reads as the count says if and only if nothing faults, or the fault is at the first byte or on a block boundary, or the stray bytes are beyond the end |
| FileSteps.TornShows | kernel/fs.c:545-548 | two bytes written over a file of one byte, the second faulting: the count is 0 and the file has changed |
| FileSteps.CountTells | kernel/fs.c:528-562 | the outcome of writei is that of a write of as many bytes as counted exactly if the file reads so |
| FileSteps.TruncKeeps | kernel/fs.c:448-476 | an inode without slots is in order, and no other file is affected |
| FileSystem.Volume.constructor | kernel/fs.c:41-48 | any image in order, whatever files it holds, is a volume whose inodes in memory are those on disk |
| FileSystem.Volume.Balloc | kernel/fs.c:66-89 | the first free block, marked, cleared and logged; 0 exactly when none is free |
| FileSystem.Volume.Bfree | kernel/fs.c:92-106 | clears one bit and logs it; panics exactly if it was clear |
| FileSystem.Volume.Bmap | kernel/fs.c:405-444 | the block of a file's n-th kilobyte, a new one cleared; mapped ones change nothing; 0 only on a full disk; panics exactly beyond MAXFILE; changes are logged |
| FileSystem.Volume.RootAddr | kernel/fs.c:411-429 | the same for an address in the inode |
| FileSystem.Volume.EntryAddr | kernel/fs.c:430-440 | the same for an address in the indirect block |
| FileSystem.Volume.Iupdate | kernel/fs.c:226-242 | the inode's copy on disk is brought up to date and logged |
| FileSystem.Volume.Readi | kernel/fs.c:494-519 | the file's bytes at the offset, clipped at its size; -1 exactly if the destination cannot take them; never allocates, logs or panics |
| FileSystem.Volume.WriteChunk | kernel/fs.c:539-551 | one block of a write: mapped, changed and, if the copy was whole, logged |
| FileSystem.Volume.WriteBlocks | kernel/fs.c:539-551 | the loop ends with the count the arguments determine, or on a disk that had no more free blocks than the write spans; it accounts for every block it logs |
| FileSystem.Volume.Settle | kernel/fs.c:553-559 | the size becomes the larger of old size and end of write, on disk too |
| FileSystem.Volume.Writei | kernel/fs.c:528-562 | exactly the bytes from the offset change, in this file only, no hole appears, every changed block is logged, within the bound; the count is the one the arguments determine unless the disk had too few free blocks; -1 exactly for a bad offset or size |
| FileSystem.TornCall | kernel/fs.c:528-562 | a call of writei that returns 0 and has changed the file |
| FileSystem.Volume.FreeSlot | kernel/fs.c:92-106 | freeing a block some slot holds does not panic |
| FileSystem.Volume.FreeDirect | kernel/fs.c:455-460 | the direct blocks are freed, each once |
| FileSystem.Volume.FreeIndirect | kernel/fs.c:462-472 | the blocks behind the indirect block, then that block, are freed, each once |
| FileSystem.Volume.Itrunc | kernel/fs.c:448-476 | exactly the inode's blocks are freed, "freeing free block" is not reached, other files are unchanged, only bitmap and inode blocks are logged |
| FileSystem.Volume.Filewrite | kernel/file.c:134-179 | a long write in chunks is one write; n is returned exactly if all bytes went in; each transaction logs at most MAXOPBLOCKS blocks; failure means a bad range, an unreadable source or a full disk; with room on the disk the new offset is the one the arguments determine, faults included; between transactions the file has whole chunks only, and each transaction's changes are in its log set |
| FileSystem.Volume.WriteTransaction | kernel/file.c:155-165 | one chunk: at most MAXOPBLOCKS blocks logged, and what changed is among them unless a copy faulted part way |
| FileImage.Unpack | kernel/fs.c:430-436 | bytes packed into words read back |
| FileImage.ImageChanges | kernel/fs.h:27-51 | a transaction changes the disk's image of the volume in the blocks it logged, and in no other |
| FileImage.PlacesCarried | kernel/fs.h:27-51 | a transaction gives files new words in blocks it has logged only |
| FileImage.FileOnImage | kernel/fs.h:27-51 | a disk that agrees with the volume in the words of a file's size and addresses, indirect block and data holds that file, whatever else is on it |
| FileCrash.StoryChains | kernel/file.c:149-172 | the images between the transactions of a filewrite are those of a writer of the log |
| FileCrash.ChunksSurviveWhole | kernel/file.c:149-172 | crash a filewrite anywhere, and its recoveries too, while other processes log what they like but the words of some files: on the recovered disk the written file is the old one with the first m chunks laid over it, all ended ones if nothing waits for a commit or no operation is open any more, and the others of these files are as before |
| FileCrash.VolumeSurvivesWhole | kernel/file.c:149-172 | if nobody else changes anything the whole volume, bitmap included, comes back as it was between two transactions |
| FileCrash.ChunksFitReservation | kernel/file.c:149-153 | no log_write of a filewrite exceeds the reservation of its operation |
| PageMap.PteParts | kernel/riscv.h:358-369 | page and flags read back from an entry, and each flag is where the code tests it |
| PageMap.PopKeeps | kernel/kalloc.c:68-82 | taking the first free page keeps list, trees and conservation |
| PageMap.PushKeeps | kernel/kalloc.c:46-63 | giving back a page in one's hands keeps them too |
| PageMap.AttachNodeKeeps | kernel/vm.c:107-112 | a cleared page linked as a lower table keeps every table right |
| PageMap.AttachRootKeeps | kernel/vm.c:178-187 | a cleared page as the root of a new tree keeps every table right |
| PageMap.MapLeafKeeps | kernel/vm.c:165-167 | entering a mapping keeps every table right and hands its page over |
| PageMap.OpenLeaf | kernel/vm.c:206-210 | a mapping struck off leaves one word of one table to be cleared, and its page in nobody's hands but the caller's |
| PageMap.OpenNode | kernel/vm.c:262-278 | the same for a table with nothing below it |
| PageMap.CloseHole | kernel/vm.c:262-278 | clearing that word makes all tables right |
| PageSteps.OnTheWay | kernel/vm.c:103-113 | what walk reads in a table is where the next table is, or that there is none |
| PageSteps.NothingUnder | kernel/vm.c:262-278 | nothing is below an entry that is not valid |
| PageSteps.RolledBack | kernel/vm.c:216-324 | mapping pages and unmapping them again leaves mappings, pages in use and their contents as they were |
| PageSteps.UserGrows | kernel/vm.c:216-240 | growing an address space, or copying into one, keeps it well formed for its new size |
| PageSteps.UserShrinks | kernel/vm.c:246-258 | shrinking does too |
| PageSteps.UserFaults | kernel/vm.c:452-473 | a page fault does too |
| PageSteps.TreeIsGone | kernel/vm.c:262-288 | after unmapping and freewalk nothing of the tree is left and nothing else has changed |
| Vm.Memory.constructor | kernel/kalloc.c:26-40 | kinit puts every allocatable page on the free list |
| Vm.Memory.Kalloc | kernel/kalloc.c:68-82 | a page nobody else has, or 0 exactly when none is free |
| Vm.Memory.Kfree | kernel/kalloc.c:46-63 | the page is first on the free list; panics exactly if the address is unaligned or out of range |
| Vm.Memory.Walk | kernel/vm.c:97-115 | the lowest table for an address; without alloc nothing changes; with it only missing tables appear, and failure means no memory; panics exactly from MAXVA on |
| Vm.Memory.Walkaddr | kernel/vm.c:120-138 | lookup in the finite map of user pages |
| Vm.Memory.MapOne | kernel/vm.c:163-167 | insertion of one page; panics exactly if mapped already or beyond MAXVA |
| Vm.Memory.Mappages | kernel/vm.c:145-174 | insertion of a run of pages, stopping at the first that cannot be mapped, with the reason for each way to end |
| Vm.Memory.MapPage | kernel/vm.c:145-174 | for one unmapped page: it is entered, or memory ran out and no mapping changed |
| Vm.Memory.UnmapOne | kernel/vm.c:202-210 | removal of one page, freed if owned |
| Vm.Memory.Uvmunmap | kernel/vm.c:192-212 | removal of exactly a span of the map; what it owned is free; panics exactly if unaligned or beyond MAXVA |
| Vm.Memory.MapFresh | kernel/vm.c:227-237 | a page of one's own with given contents is mapped, or every page taken is given back |
| Vm.Memory.Uvmcreate | kernel/vm.c:178-187 | a new tree with nothing in it, or 0 exactly when no page is free |
| Vm.Memory.Uvmalloc | kernel/vm.c:216-240 | every page up to the new size is mapped, cleared and private, with the flags given besides those of a user page; on failure the mappings are as before, and fewer than three free pages for each page wanted were there |
| Vm.Memory.Uvmdealloc | kernel/vm.c:246-258 | exactly the pages beyond the new size are unmapped and freed |
| Vm.Memory.Freewalk | kernel/vm.c:262-278 | panics exactly if a page is mapped below; else frees exactly the tables at and below, each once |
| Vm.Memory.Uvmfree | kernel/vm.c:282-288 | panics exactly if a page beyond the size is mapped; else the tree is gone |
| Vm.Memory.Uvmcopy | kernel/vm.c:296-324 | the child maps exactly the parent's pages, holes staying holes, to private pages with the same contents and flags; on failure, for want of memory, nothing is left mapped |
| Vm.Memory.Vmfault | kernel/vm.c:452-473 | a cleared page where there was none inside the process; 0 only if outside, mapped already or out of memory |
| Vm.Memory.ProcPagetable | kernel/proc.c:205-235 | a tree with trampoline and trapframe, not owned, each with its own permissions; on failure, with fewer than five pages free, every table is given back |
| Vm.Memory.ProcFreepagetable | kernel/proc.c:239-245 | freeing a process's memory never panics, returns each of its pages once, and touches nothing else |
| Vm.Memory.ForkMemory | kernel/proc.c:122-306 | the child gets a trapframe, the trampoline above it, and a well-formed copy of the parent's memory; the mappings of the parent and of every other address space and the contents of all pages in use are as before; after a failure at any point, which only a shortage of pages brings, no table, mapping or page is left behind |
| Vm.Memory.Growproc | kernel/proc.c:265-284 | growth adds cleared, private, writable pages and leaves the rest; a shrink unmaps exactly the pages beyond the new size; the address space is well formed for that size; failure means no room or no memory and maps nothing; a shrink below zero is ignored |
| Virtio.WrapKeepsOrder | kernel/virtio_disk.c:312 | comparing 16-bit indices is exact for rings of this length |
| Virtio.RingPush | kernel/virtio_disk.c:272-277 | writing an entry overwrites none that is unread, across wrap-around |
| Virtio.RingPop | kernel/virtio_disk.c:312-323 | the reader finds the oldest unread entry, and the index test tells exactly whether there is one |
| Virtio.RingHasRoom | kernel/virtio_disk.c:272-277 | a ring always has room, because queued heads are descriptors in use |
| Virtio.FormatDescribes | kernel/virtio_disk.c:236-269 | the device decodes the formatted chain, its lengths and directions included, as the request submitted |
| Virtio.SubmitKeeps | kernel/virtio_disk.c:215-292 | submitting keeps descriptors split into free ones and disjoint chains |
| Virtio.FinishKeeps | kernel/virtio_disk.c:284-291 | so does giving a chain back |
| Virtio.Disk.constructor | kernel/virtio_disk.c:61-153 | all descriptors start free |
| Virtio.Disk.AllocDesc | kernel/virtio_disk.c:156-166 | the lowest free descriptor, or -1 exactly if there is none |
| Virtio.Disk.FreeDesc | kernel/virtio_disk.c:169-182 | panics exactly if out of range or free already |
| Virtio.Disk.FreeChain | kernel/virtio_disk.c:185-197 | on any table whose links stay in it: ends, frees each descriptor it comes by once, and panics exactly if the links lead to a free one, a cycle included |
| Virtio.ChainIsPath | kernel/virtio_disk.c:185-197 | on a chain of three in use it does not panic and frees exactly these |
| Virtio.Disk.Alloc3Desc | kernel/virtio_disk.c:201-213 | three distinct descriptors, or nothing changed and fewer than three are free |
| Virtio.Disk.Submit | kernel/virtio_disk.c:215-281 | a request for the block's two sectors is last on the available ring with its own chain, or nothing changed for want of descriptors |
| Virtio.SectorsApart | kernel/virtio_disk.c:218 | different blocks occupy different bytes of the device, up to 32-bit sector numbers |
| Virtio.Disk.Take | kernel/virtio_disk.c:236-277 | the device reads requests in order of submission, each as it was submitted |
| Virtio.Disk.Complete | kernel/virtio_disk.c:309-323 | the device may report requests in any order without overwriting a report |
| Virtio.Disk.Retire | kernel/virtio_disk.c:312-323 | each report releases the buffer of its own request; panics exactly on an error status |
| Virtio.Disk.Interrupt | kernel/virtio_disk.c:294-327 | every report is retired, or one of them carries an error |
| Virtio.Disk.Finish | kernel/virtio_disk.c:283-291 | a request ends exactly when the driver has seen its report, and gives back its three descriptors and no others |
| SleepWakeup.StepKeeps | kernel/proc.c:668-714 | every step of every process keeps: a committed sleeper has missed no change unless a waker is on its way to it |
| SleepWakeup.WakeOneKeeps | kernel/proc.c:700-714 | so does wakeup's scan, one process at a time |
| SleepWakeup.RunKeeps | kernel/proc.c:668-738 | it holds in every state of every interleaving, with kill |
| SleepWakeup.NoLostWakeup | kernel/proc.c:668-714 | whenever the condition lock is free, a sleeper has seen the last change and is rightly blocked |
| SleepWakeup.WakesExactly | kernel/proc.c:700-714 | a turn of wakeup's scan makes its entry ready exactly if it is another process asleep on this channel |
| SleepWakeup.KillWakes | kernel/proc.c:719-738 | kill makes a sleeper ready on whatever channel it sleeps |
| SleepWakeup.NoChangeSince | kernel/proc.c:668-714 | with the lock free, a sleeper's last test found the condition blocking and nobody has changed it since |
| SleepWakeup.SleeperStays | kernel/proc.c:668-714 | nobody leaves sleep unless wakeup's scan or a kill makes it ready |
| SleepWakeup.ElsewhereMoves | kernel/proc.c:618-714 | a process outside the protocol may be put in any run state, and nothing else changes |
| SleepWakeup.CanStep | kernel/proc.c:668-714 | every process can take its next step, but for one asleep and for locks others hold |
| SleepLock.TakesAndFrees | kernel/sleeplock.c:21-41 | a caller that finds the lock free becomes its only owner, and a release leaves none |
| SleepLock.StepKeeps | kernel/sleeplock.c:21-41 | acquire and release keep at most one owner |
| SleepLock.MutualExclusion | kernel/sleeplock.c:21-52 | at most one process holds the lock, and holdingsleep tells exactly which |
| SleepLock.AsleepImpliesLocked | kernel/sleeplock.c:21-41 | nobody sleeps on a lock that is free |
| ProcTree.ForkKeepsTree | kernel/proc.c:288-344 | fork keeps every parent alive |
| ProcTree.ExitKeepsTree | kernel/proc.c:348-404 | exit hands all its children to init before it becomes a zombie |
| ProcTree.PidsKept | kernel/proc.c:105-172 | pids in use stay distinct |
| ProcTree.PidsConsecutive | kernel/proc.c:105-116 | pids are given out one after the other, across all interleavings |
| ProcTree.StepKeeps | kernel/proc.c:288-453 | every step of fork, exit and wait keeps tree, locks, pids and history |
| ProcTree.RunKeeps | kernel/proc.c:288-453 | they hold in every state of every interleaving |
| ProcTree.ExitHandsOver | kernel/proc.c:346-358 | exit hands every child it finds to init, whatever the others do meanwhile |
| ProcTree.ForkMakesChild | kernel/proc.c:288-344 | fork's child becomes ready with its forker as parent and the pid it was given |
| ProcTree.WaitReturns | kernel/proc.c:408-453 | wait gives up exactly if its caller has no child or was killed, and sleeps otherwise |
| ProcTree.NoMissedExit | kernel/proc.c:360-453 | nobody sleeps in wait without a child, or over a child that has exited |
| ProcTree.FailedCopyKeepsChild | kernel/proc.c:430-435 | a failed copy of the status leaves the child to be waited for again |
| ProcTree.LockHolderSteps | kernel/proc.c:346-453 | whoever holds wait_lock can go on, by the one step its scan calls for |
| ProcTree.RunnerSteps | kernel/proc.c:288-453 | a running process in fork, or at the start of exit or wait, can go on once wait_lock is free |
| ProcTree.ScheduleMoves | kernel/proc.c:618-714 | scheduler, sleep and wakeup move a process between the live states and touch nothing else |
| ProcTree.NoOrphans | kernel/proc.c:348-404 | every process but init has a parent that is neither a zombie nor unused |
| ProcTree.ReapedOnce | kernel/proc.c:408-453 | wait returns a zombie child of its caller, and no pid is ever returned twice |
| Mlfq.ChosenIsUnique | kernel/proc.c:540-559 | level and round-robin index determine the process dispatched |
| Mlfq.Scheduler.PromotionPass | kernel/proc.c:519-534 | every waiting process is counted, and promoted when its waiting exceeds the threshold |
| Mlfq.Scheduler.Select | kernel/proc.c:537-559 | the first ready process of the least level at or after that level's index, whose index moves past it; none only if none is ready |
| Mlfq.Scheduler.constructor | kernel/proc.c:51-72 | the scheduler starts in the boot state of the machine |
| Mlfq.Scheduler.Schedule | kernel/proc.c:518-567 | promotion, selection and dispatch together are one step of the machine the run theorems are about |
| Mlfq.Scheduler.ComesBack | kernel/proc.c:569-579 | so is the demotion check; the level rises exactly for a process that has not yielded, has used up its slice and has a level below |
| Mlfq.StepKeeps | kernel/proc.c:504-587 | scheduling, yielding, sleeping, forking and exiting keep levels, slices and counters consistent |
| Mlfq.RunKeeps | kernel/proc.c:504-587 | they are consistent in every state from boot on |
| Mlfq.DispatchesLeastLevel | kernel/proc.c:540-559 | no ready process has a lower level than the one dispatched |
| Mlfq.PatienceShrinks | kernel/proc.c:519-559 | being passed over uses up a bounded credit, through promotion or through the index |
| Mlfq.BoundedWaiting | kernel/param.h:16-22 | a ready process is passed over fewer than 560 + NPROC times in a row, and fewer than NPROC times at level 0 |
| Mlfq.RunBoundedWaiting | kernel/proc.c:519-559 | the same over runs in which the other processes do anything |
| Mlfq.RunWaits | kernel/proc.c:518-534 | a waiting process changes by the passes of the scheduler alone |
| Mlfq.PromotedExactly | kernel/proc.c:519-532 | the promotion comes at the pass that makes the wait PROMO_THRESHOLD slices long, and not before |
| Mlfq.TopExactly | kernel/proc.c:519-532 | level 0 is reached at the pass that uses up the credit, and not before |
| Mlfq.NoPromotion | kernel/proc.c:519-532 | from boot on no pass promotes anybody |
| Mlfq.BootBoundedWaiting | kernel/proc.c:536-559 | from boot on a ready process is passed over fewer than NPROC times |
| Mlfq.NoLiveProcessIsDemoted | kernel/proc.c:618-627 | from boot on every process that has not exited is at level 0 |
| Mlfq.DemotedExactly | kernel/proc.c:570-579 | a process is demoted if and only if it exits with its slice used up and a level below |
| Mlfq.ForkStartsFresh | kernel/proc.c:308-314 | a forked process starts at its parent's level with nothing of its slice used |
| Mlfq.WholeLife | kernel/proc.c:122-200 | from every boot a run through dispatch, sleep, wakeup, an expired slice, exit and demotion back to a blank entry |
| Mlfq.ExpiredSliceKeepsLevel | kernel/trap.c:84-85 | from every boot a run in which a process uses up its four ticks, is preempted and is ready at level 0 again |
| Umalloc.Units | user/umalloc.c:69 | enough units for header and request, and no more than needed |
| Umalloc.LinkKeepsShape | user/umalloc.c:33-43 | linking a block where its address belongs keeps the list ordered and disjoint |
| Umalloc.MergeKeepsShape | user/umalloc.c:33-42 | joining adjacent blocks does too, and moves their units |
| Umalloc.FreeKeepsInv | user/umalloc.c:24-44 | free keeps the list ordered, disjoint and fully coalesced |
| Umalloc.SplitKeepsInv | user/umalloc.c:79-81 | so does splitting a block |
| Umalloc.UnlinkKeepsInv | user/umalloc.c:76-77 | so does taking a whole block |
| Umalloc.GrowKeepsInv | user/umalloc.c:46-61 | so does memory from sbrk above any gap |
| Umalloc.Conservation | user/umalloc.c:24-90 | the sizes of free and allocated blocks add up to the units obtained from sbrk |
| Umalloc.Allocator.constructor | user/umalloc.c:19-22 | the allocator starts without a list |
| Umalloc.Allocator.Store | user/umalloc.c:24-90 | the program may write its own payload |
| Umalloc.Allocator.FindGap | user/umalloc.c:30-32 | the search ends at the free block just below the freed one, wherever it starts |
| Umalloc.Allocator.Free | user/umalloc.c:24-44 | the block is no longer live, no unit is lost, live blocks are untouched, and a free block holds it |
| Umalloc.Allocator.Morecore | user/umalloc.c:46-61 | refused: nothing changes; granted: exactly the new units are added and a free block can serve the request |
| Umalloc.Allocator.Take | user/umalloc.c:75-85 | a block of exactly the size asked for becomes live |
| Umalloc.Allocator.Malloc | user/umalloc.c:63-90 | a new live block of the size asked for, others untouched; NULL only if sbrk refused and no free block is big enough; sbrk is asked at most once, and only if no block of the list is big enough |
| Umalloc.Allocator.Start | user/umalloc.c:70-73 | the first call makes a list of the anchor |
| Grep.Match | user/grep.c:72-82 | true exactly if the text has a match of the pattern, at its start if anchored |
| Grep.MatchHere | user/grep.c:85-96 | true exactly if a prefix of the text, or all of it under a final dollar, is in the pattern's language |
| Grep.MatchStar | user/grep.c:99-106 | true exactly if some run of the character is followed by a match of the rest |
| Grep.OncePattern | user/grep.c:91-94 | the language of a plain character and of a dot |
| Grep.StarPattern | user/grep.c:87-88 | the language of a starred character |
| Grep.DollarPattern | user/grep.c:89-90 | a lone dollar matches only the end of the text |

## Left out

- FileSystem.Volume.Filewrite: other processes may use the file between two chunks; the contents are stated for a file that nobody else writes meanwhile.
- Virtio.Disk.Interrupt: the device adds no report while the loop runs; Retire states one turn, between which it may.
- Vm.Memory.Kfree: a page in range is one its caller holds; freeing a page somebody else uses is excluded.
- Umalloc.Allocator.Malloc: requests whose size in bytes would overflow the 32-bit argument of sbrk are excluded.
- Vm.Memory.Uvmunmap: callers pass do_free for pages the address space owns and only for those, as all callers in the kernel do.
- Vm.Memory.UnmapOne: the same.
- Vm.Memory.MapOne: perm has one of R, W and X; an entry with none of them is a pointer to a lower table to the hardware, and no caller asks for one.
- Vm.Memory.Mappages: the same.
- Vm.Memory.Uvmalloc: sizes beyond MAXVA, on which walk panics, are excluded.
- LogProtocol.ModifyKeeps: buffers are modified only inside an operation, and logged before they are released; the buffer that a copy fault in writei leaves modified and unlogged is outside the machine.
- FileCrash.ChunksSurviveWhole: other processes leave the size, addresses and blocks of the file alone, and the last transaction is not one torn by a copy fault.
- FileSystem.Volume.Iupdate: the addresses and the size are copied; the type, device and link count of an inode are not modelled, and its words on disk are those of `FileImage.InodeWords`.
- Umalloc.GrowKeepsInv: the gap below new memory counts whole 16-byte units; another caller of sbrk may move the break by any number of bytes.
- Umalloc.Allocator.Morecore: the same.
- Inode allocation, the inode cache with its reference counts, directories, path names and device files are not modelled.
- copyin, copyout and copyinstr appear as how many bytes of a user buffer can be accessed; the kernel's own page table, exec and the TLB are not modelled.
- Spinlocks, memory ordering, interrupts being off and context switches appear as which steps are atomic.
- The wake-ups that brelse-style waiting loops and full logs rely on are those of `SleepWakeup`; scheduling fairness beyond the bound on passes is not modelled, nor is more than one CPU in `Mlfq`.
- Device set-up, console, UART, interrupt controller, pipes, system call dispatch, the shell and the other user programs, and mkfs would only add easy members.
