# A verified model of xv6 for RISC-V

The project models the parts of the xv6 kernel that carry its guarantees, and the two user programs with the
most intricate logic: the redo log and its transactions, the buffer cache, files and directories, the page
tables and `exec`, the scheduler with `sleep` and `wakeup`, `exit` and `wait`, pipes, the virtio disk queue, the
shell's parser and the user allocator.

Code that updates structures in place is a class with methods proved against specification functions. Code run by
several processors or processes at once is a state machine whose steps are the places where the source can be
interleaved: a run is any sequence of such steps, and the theorems hold at the end of every run. Integers are
unbounded except where the source's width matters, and there the width is written out: 16-bit link counts, 32-bit
reference counts and file offsets, the `int` that `malloc` passes to `sbrk`, the 16-bit indices of the disk queue.

| files | part of xv6 |
|---|---|
| LogFormat, RedoLog, Transactions, Durability, LogLimits | `kernel/log.c`: commit, recovery, concurrent operations, what `end_op` promises, room in the log |
| BufferCache, LogCounts | `kernel/bio.c`, and what `kernel/log.c` does to its reference counts |
| FsDisk, FileLog, Files, ChunkLimits, OpLogs | `kernel/fs.c`, `kernel/file.c`, `kernel/sysfile.c`: blocks, contents, what each operation logs |
| PathNames, Links, Directories, PathLookup, DirEffects, LinkRuns | `kernel/fs.c`, `kernel/sysfile.c`: names, paths, lookups, link counts |
| PageRam, PageSteps, Vm, Exec, ExecLayout | `kernel/kalloc.c`, `kernel/vm.c`, `kernel/exec.c` |
| Scheduling, SwitchLocks, Wakeups, ExitWait, WaitKids, Families, InitWait, InitMiss, ExitDeadlock | `kernel/proc.c`, `kernel/sleeplock.c` |
| Virtio, Pipe | `kernel/virtio_disk.c`, `kernel/pipe.c` |
| Shell, ShellGrammar, ShellAccepts | `user/sh.c`: tokens, parser, printing and parsing back, which lines are accepted and what they mean, NUL termination |
| FreeList, Malloc | `user/umalloc.c` |

`dafny verify dfyconfig.toml` checks everything.

## Where the code does not keep its promise

Each of these is proved: a concrete input or run, and the condition under which the promise holds.

| promise | holds exactly when | shown by |
|---|---|---|
| the log stays inside its region | the region has one block more than LOGSIZE; `mkfs` makes it LOGSIZE blocks | `LogLimits.RegionSafeIffRoomy`, `LogLimits.SmallRegionOverruns` |
| an operation is granted the log entries reserved for it | the same | `LogLimits.AppendSafeIffRoomy`, `LogLimits.SmallRegionRefuses` |
| writing a block already in the log needs no room | the log is not full: `log_write` tests for room before it looks for the block | `Transactions.TooBigExactlyWhenFull`, `LogLimits.AbsorbingWriteCanPanic` |
| recovery gives reference counts back | the recovered log is empty; otherwise every listed block is left with the largest count, and a block used after that is in no buffer although a caller holds it or the log lists it | `LogCounts.Log.Recover`, `LogCounts.RecoveryLosesBuffer` |
| a commit finds the buffers it needs | a buffer is free when it begins: with nothing else in use, fewer blocks are listed than there are buffers; LOGSIZE and NBUF are equal | `LogCounts.Log.Commit`, `LogCounts.FullLog`, `RedoLog.Log.Commit` |
| recovery finds the buffers it needs | the log lists fewer blocks than there are buffers; otherwise every later boot fails the same way | `LogCounts.Log.Recover`, `RedoLog.Log.RecoverFromLog` |
| link counts are the numbers of names, after `link` | the directory still has a name and the count is below 32767 | `Directories.LinkLaw`, `LinkRuns.DeadDirectory`, `LinkRuns.LinkTooMany` |
| the same, after `create` | the directory still has a name | `Directories.CreateLaw`, `LinkRuns.DeadDirectory` |
| a chunk of `filewrite` logs at most MAXOPBLOCKS blocks | guaranteed for a file without holes, and attained; one hole gives one block too many | `Files.FileSystem.WriteChunk`, `ChunkLimits.ChunkAtLimit` |
| the last close of an unlinked file logs at most MAXOPBLOCKS blocks | its blocks have their bits in fewer than MAXOPBLOCKS bitmap blocks | `Files.FileSystem.Iput`, `OpLogs.CloseOverruns` |
| `writei` does not panic | the blocks it needs are free | `Files.FileSystem.Writei` |
| no reader of a pipe sleeps while bytes are there | no killed or readerless writer fills the pipe while a reader sleeps | `Pipe.Pipe.Pipewrite`, `Pipe.KilledWriterLosesWakeup` |
| no parent sleeps while it has a zombie | the parent is not `init`, or none of three steps is taken while `init` sleeps or goes to sleep | `ExitWait.SleeperHasNoZombie`, `InitMiss.MissIff`, `InitMiss.InitMissesWakeup` |
| `exit` and `wait` do not block each other for good | guaranteed while no exiting process holds the lock of a slot that is no longer its parent's; two processes block each other exactly in three crossed positions | `ExitDeadlock.CycleHasStale`, `ExitDeadlock.MutualIff`, `ExitDeadlock.ExitDeadlocks` |
| what `malloc` returns is memory of the process | the request is at most MAX_REQUEST bytes, or `sbrk` refuses | `Malloc.Allocator.Malloc`, `Malloc.HugeRequest` |

## Model

| member | source | states |
|---|---|---|
| `LogFormat.EntriesRoundTrip` | kernel/log.c:85-113 | a header block written with a list of blocks is a valid header and reads back as that list |
| `LogFormat.CrashesDuringRecovery` | kernel/log.c:68-122 | any chain of crashes, each after any disk write of a recovery, ends with the same home blocks as one recovery that is not interrupted |
| `LogFormat.CrashAtomicity` | kernel/log.c:177-202 | a crash after any disk write of a commit, then any chain of crashes during recovery, leaves every home block old if the header was not yet written and every one new if it was |
| `RedoLog.Log.Read` | kernel/bio.c:92-103 | a block read is the newest version, from the cache or the disk, and reading changes no block |
| `RedoLog.Log.ReadHead` | kernel/log.c:85-96 | the list in memory becomes the one on disk |
| `RedoLog.Log.WriteHead` | kernel/log.c:101-113 | one disk write makes the header list exactly the blocks in memory and leaves every home block as it was |
| `RedoLog.Log.LogWrite` | kernel/log.c:213-234 | the block takes its new contents for every reader, no disk block changes, and it is listed once however often it is written |
| `RedoLog.Log.WriteLog` | kernel/log.c:177-190 | slot i of the log holds the cached contents of the i-th listed block; every disk in between is the one the crash theorem speaks of |
| `RedoLog.Log.InstallTrans` | kernel/log.c:68-82 | after any number of turns each of the first listed home blocks has its slot's contents, and cache and disk agree on it |
| `RedoLog.Log.Commit` | kernel/log.c:192-202 | it completes if and only if fewer blocks are listed than there are buffers, or none; then the home blocks on disk are the ones readers saw; a commit of n > 0 blocks writes 2n+2 times; recovery from the disk after each write gives the old home blocks for the first n and the new ones after that; a commit that finds no buffer has written nothing |
| `RedoLog.Log.RecoverFromLog` | kernel/log.c:115-122 | it completes if and only if the log on disk lists fewer blocks than there are buffers, with the recovered disk and an empty log; a crash after any of its writes leaves a disk that recovers to the same home blocks; where it finds no buffer the log on disk is as before |
| `Transactions.CrashYieldsCommitted` | kernel/log.c:125-234 | at every point of every run whose log stayed in its region, with any operations, commits, crashes and recoveries, recovery yields exactly the committed transactions applied in order to the first disk |
| `Transactions.RoomyCrashYieldsCommitted` | kernel/log.c:125-234 | the same of every run when the region has a block for each of LOGSIZE entries besides the header |
| `Transactions.WholeOperations` | kernel/log.c:125-174 | in every run an operation in a committed transaction has ended, all its writes are in that transaction in its order, and none is in another |
| `Transactions.CommitIsAlone` | kernel/log.c:125-174 | in every run `outstanding` counts the operations in progress, and a commit runs only while there is none |
| `Transactions.ReservationHolds` | kernel/log.c:125-141 | in every run the log's length plus what operations in progress may still add is at most LOGSIZE |
| `Transactions.AppendNeverTooBig` | kernel/log.c:213-219 | with a roomy region an operation that has added fewer than MAXOPBLOCKS entries never meets the panic |
| `Transactions.TooBigExactlyWhenFull` | kernel/log.c:213-219 | with a roomy region the panic test is true exactly when the log lists LOGSIZE blocks, and then every operation has used all its entries |
| `Durability.TraceAgrees` | kernel/log.c:125-234 | in every run the recorded history is that of the steps taken: each operation's updates in order, and which operations have ended |
| `Durability.AtRestNothingPending` | kernel/log.c:145-174 | in every run, with no operation in progress and no commit or recovery running, the log is empty and no update is held back in memory |
| `Durability.Durable` | kernel/log.c:145-174 | in every run, once an operation has ended and the file system has come to rest before any crash, all its updates, in order, are in exactly one committed transaction, at every later point and through any crashes |
| `Durability.Completes` | kernel/log.c:68-202 | from every point of every run the commit or recovery that is running can be carried to its end, without a crash and without waiting for an operation |
| `Durability.BeginIff` | kernel/log.c:125-141 | in every run `begin_op` lets an operation in if and only if no commit is running and MAXOPBLOCKS blocks for each operation in progress and the new one fit beside those listed; with none in progress, always |
| `LogLimits.RegionSafeIffRoomy` | mkfs/mkfs.c:25 | all reachable logs fit their region if and only if the region has more blocks than LOGSIZE |
| `LogLimits.SmallRegionOverruns` | kernel/log.c:213-219 | in a smaller region some run's log does not fit, and the slot of its last block is a home block |
| `LogLimits.AppendSafeIffRoomy` | kernel/log.c:125-141 | operations are granted their reserved entries in all runs if and only if the region is roomy |
| `LogLimits.SmallRegionRefuses` | kernel/log.c:213-219 | in a smaller region some run refuses an entry to an operation that has added fewer than MAXOPBLOCKS |
| `LogLimits.AbsorbingWriteCanPanic` | kernel/log.c:213-229 | in a roomy region some run panics on a write of a block that is in the log already |
| `BufferCache.Cache.Reference` | kernel/bio.c:58-89 | for any counts: a cached block gets its own buffer; otherwise one of count zero is taken, the least recently released, and it fails exactly when there is none |
| `BufferCache.Cache.Unreference` | kernel/bio.c:116-137 | the count drops by one as a 32-bit number, and at zero the buffer moves to the front of the list, the others keeping their order |
| `BufferCache.Cache.Bget` | kernel/bio.c:58-89 | one buffer per block, no buffer in use is touched, the least recently released one is recycled, and it panics exactly when all are in use and the block is not cached |
| `BufferCache.Cache.Bread` | kernel/bio.c:92-103 | the buffer returned is locked, valid and holds the newest contents of that block |
| `BufferCache.Cache.Bwrite` | kernel/bio.c:106-112 | the block on disk becomes the buffer's contents and no other block changes |
| `BufferCache.Cache.Brelse` | kernel/bio.c:116-137 | the lock and one reference go; the last reference puts the buffer in front, and the cache stays coherent with the disk |
| `BufferCache.Cache.Bpin` | kernel/bio.c:139-144 | one reference more, so that the buffer is not recycled, and nothing else |
| `BufferCache.Cache.Bunpin` | kernel/bio.c:146-151 | one reference less, and the cache stays coherent |
| `BufferCache.Cache.Modify` | kernel/log.c:177-190 | the holder of a locked buffer changes what its block holds for every reader, and no other block |
| `LogCounts.Spare` | kernel/bio.c:58-89 | in a cache with any counts a buffer is free if and only if fewer blocks have a nonzero count than there are buffers |
| `LogCounts.EnoughToRecover` | kernel/log.c:68-82 | install_trans without pins finds its buffers if and only if the list is empty or shorter than the cache |
| `LogCounts.EnoughToCommit` | kernel/log.c:68-82 | install_trans with every listed block pinned finds its buffers if and only if the list is empty or a buffer is free |
| `LogCounts.Log.Open` | kernel/bio.c:92-103 | a caller's bread adds one to that block's count, modulo 2^32, and fails exactly when the block is not in use and no buffer is free; proper counts stay proper |
| `LogCounts.Log.Close` | kernel/bio.c:116-137 | a caller's brelse takes one away; proper counts stay proper |
| `LogCounts.Log.LogWrite` | kernel/log.c:213-234 | the block is listed once and pinned once however often it is written; proper counts stay proper |
| `LogCounts.Log.InstallTrans` | kernel/log.c:68-82 | for any counts: every listed block ends with one less, modulo 2^32, every other with what it had; it fails exactly when some turn finds no buffer |
| `LogCounts.Log.Commit` | kernel/log.c:192-202 | with proper counts it completes if and only if nothing is listed or a buffer is free, and then every count is again what it was without the log's pins |
| `LogCounts.Log.Recover` | kernel/log.c:115-122 | for any cache and any log of distinct home blocks: it completes if and only if the log lists fewer blocks than there are buffers; then exactly the listed blocks have a nonzero count, the largest; counts are proper if and only if the log was empty |
| `LogCounts.RecoveryLosesBuffer` | kernel/log.c:115-122 | for any cache of two or more buffers: a recovery of one block, a read of it, or a read, change, log_write and release, and then as many reads as there are buffers; none is refused, and the block is in no buffer |
| `LogCounts.FullLog` | kernel/log.c:192-202 | for any cache and a region with room: from an empty log, as many blocks as there are buffers are logged one after another, and the commit finds no buffer |
| `FileLog.NewsWereFree` | kernel/fs.c:64-86 | blocks given to a file while it was filled were free and distinct; a disk that is then full gave all its free blocks |
| `FileLog.FreeAfter` | kernel/fs.c:64-86 | filling slots takes exactly one free block for each |
| `Files.FileSystem.Balloc` | kernel/fs.c:64-86 | the lowest free block, zeroed, now marked used, or failure exactly when all are used; the blocks logged are its bitmap block and itself |
| `Files.FileSystem.Bfree` | kernel/fs.c:89-103 | that block alone becomes free, and its bitmap block is logged |
| `Files.FileSystem.Bmap` | kernel/fs.c:377-405 | an existing block is found with nothing changed; a missing one is allocated, with the indirect block where needed; no file's contents change; the logged set is exact |
| `Files.FileSystem.Readi` | kernel/fs.c:455-476 | the bytes returned are that stretch of the file's contents, as many as asked for, present and copied, and the disk and the log are unchanged |
| `Files.FileSystem.Writei` | kernel/fs.c:482-514 | the contents become the old ones with the bytes put at the offset; other files are unchanged; it panics exactly when more blocks are needed than are free; the blocks it logs are exactly those stated; the three refusals change nothing |
| `Files.FileSystem.BlocksOfWrite` | kernel/fs.c:492-507 | which blocks a write maps, which it logs and how many bytes count, when the copy from user memory fails after any number of bytes |
| `Files.FileSystem.WriteChunk` | kernel/file.c:156-176 | a chunk fails exactly past the end or the size limit; with no hole in the file it logs at most MAXOPBLOCKS blocks |
| `Files.FileSystem.Filewrite` | kernel/file.c:134-181 | the chunks together are one write of a prefix of the bytes: all, or as many whole chunks as the largest file holds; the offset advances by what was written; it panics exactly when the blocks those bytes need are more than are free |
| `Files.FileSystem.WriteLogCard` | kernel/fs.c:482-514 | for a file without holes the logged set is at most the spanned blocks, the inode, the indirect block and the bitmap blocks |
| `Files.FileSystem.ChunkFitsOperation` | kernel/file.c:156-163 | filewrite's largest chunk at any offset needs at most MAXOPBLOCKS blocks, for any MAXOPBLOCKS and any number of bitmap blocks |
| `Files.FileSystem.Itrunc` | kernel/fs.c:409-437 | exactly the file's blocks are freed, the file is empty, other files are unchanged, and the logged set is exact |
| `Files.FileSystem.Iput` | kernel/fs.c:332-358 | the inode is freed with all its blocks exactly at the last reference of a file without links, logging at most the bitmap blocks and the inode |
| `OpLogs.EntryLog` | kernel/fs.c:553-580 | a directory entry's write logs the inode and one block if its block is there, two if it is a new direct one, four otherwise |
| `OpLogs.PutEntry` | kernel/fs.c:553-580 | the same of the write itself, which fails only when blocks are needed and the disk is full |
| `OpLogs.LinkBlocks` | kernel/sysfile.c:119-166 | link logs at most six blocks, one when the name is in use |
| `OpLogs.UnlinkBlocks` | kernel/sysfile.c:184-239 | unlink logs at most three blocks, and at most all bitmap blocks besides when the file goes |
| `OpLogs.CreateBlocks` | kernel/sysfile.c:241-284 | create logs at most six blocks for a file and nine for a directory |
| `OpLogs.CloseOverruns` | kernel/fs.c:332-358 | a disk in good order on which giving up the last reference to an unlinked file logs thirteen blocks, for every MAXOPBLOCKS up to twelve |
| `ChunkLimits.ChunkAtLimit` | kernel/file.c:156-163 | for each chunk length of 1 to 256 blocks a disk in good order, its inode blocks, bitmap and data blocks one after another, on which one chunk logs exactly MAXOPBLOCKS blocks, and one where the file has a hole on which it logs one more |
| `PathNames.Strncmp` | kernel/string.c:57-65 | zero exactly when the strings agree up to n bytes or a NUL, and otherwise the difference of the first bytes that differ |
| `PathNames.Strncpy` | kernel/string.c:67-78 | n bytes: the string up to a NUL or n, padded with NULs |
| `PathNames.Namecmp` | kernel/fs.c:518-522 | zero exactly when the two names are stored as the same DIRSIZ bytes |
| `PathNames.SameField` | kernel/fs.c:518-522 | two names have the same stored bytes if and only if they agree up to DIRSIZ bytes or a NUL |
| `PathNames.SameElement` | kernel/fs.c:597-620 | two path elements have the same stored name if and only if their first DIRSIZ bytes are equal |
| `PathNames.Skipelem` | kernel/fs.c:597-620 | it splits off the first element of the path, cut to DIRSIZ bytes, and leaves the rest; it ends exactly when no element is left; at the last element the rest is empty |
| `Links.DirLinksBound` | kernel/sysfile.c:241-284 | a directory's link count is below its number of entries |
| `Directories.SameEntry` | kernel/fs.c:526-550 | two path elements find the same entry of a directory if and only if they agree on DIRSIZ bytes |
| `Directories.UniqueNames` | kernel/fs.c:553-580 | two used entries of a directory that agree on DIRSIZ bytes are one |
| `Directories.ResolveLive` | kernel/fs.c:625-657 | from a directory that has a name, walking any list of elements does not panic and ends at an existing inode, and at a directory only if it has a name |
| `Directories.LookupLive` | kernel/fs.c:659-671 | both lookups of any path have this property, and a parent found is a directory with a name |
| `Directories.LinkLaw` | kernel/sysfile.c:119-166 | the counts stay the numbers of names after a new entry if and only if the directory has a name and the file's count is below 32767 |
| `Directories.Overflows` | kernel/sysfile.c:119-166 | the link after 32767 stores the count -32768 |
| `Directories.OverflowThenUnlink` | kernel/sysfile.c:184-239 | after that, unlink of any name of the file panics |
| `Directories.UnlinkLaw` | kernel/sysfile.c:184-239 | removing a name other than "." and "..", of a file or an empty directory, keeps the tree and the counts |
| `Directories.CreateLaw` | kernel/sysfile.c:241-284 | a new file or directory keeps the tree and the counts if the directory has a name, and otherwise breaks them |
| `Directories.NoWrap` | kernel/sysfile.c:241-284 | a directory's link count never wraps, because its entries run out first |
| `Directories.Directories.Dirlookup` | kernel/fs.c:526-550 | the first used entry with that stored name, or none if there is none |
| `Directories.Directories.Dirlink` | kernel/fs.c:553-580 | a name already there fails, a full directory panics, otherwise the first free place takes the entry and nothing else changes |
| `Directories.Directories.Namex` | kernel/fs.c:625-657 | the loop resolves the path's elements from the root or the current directory, or all but the last, and then leaves the last one's stored name in the buffer |
| `Directories.Directories.Isdirempty` | kernel/sysfile.c:169-182 | true exactly when nothing but the first two entries is used |
| `Directories.Directories.Link` | kernel/sysfile.c:119-166 | for every pair of paths: the outcome and the new tree, a failure undoing the count; success keeps the tree and counts exactly under the condition above |
| `Directories.Directories.Unlink` | kernel/sysfile.c:184-239 | for every path: the outcome and the new tree, the tree and counts kept, and no panic except one of the lookup |
| `Directories.Directories.Create` | kernel/sysfile.c:241-284 | for every path and kind: the outcome and the new tree, an existing file returned unchanged, and the tree and counts kept exactly when the directory has a name |
| `Directories.Directories.Reclaim` | kernel/fs.c:332-358 | giving up an inode without links keeps the tree and the counts |
| `PathLookup.ElemsOf` | kernel/fs.c:597-620 | the elements of a path are, in order, what stands between its slashes, however many slashes there are |
| `PathLookup.ResolveIff` | kernel/fs.c:625-657 | walking a list of names ends at an inode if and only if a chain of directories, each naming the next, leads there; it finds nothing if and only if the chain breaks off at a missing name or at something that is no directory |
| `PathLookup.NameiIff` | kernel/fs.c:659-664 | `namei` finds an inode if and only if such a chain by the path's elements leads to it, from the root for a path that starts with a slash and else from the current directory; and finds nothing exactly when the chain breaks off |
| `PathLookup.NameiparentIff` | kernel/fs.c:666-671 | `nameiparent` finds a directory if and only if there is an element and a chain by all elements but the last leads to it; and nothing exactly when there is none, the chain breaks off, or it leads to something that is no directory |
| `DirEffects.LinkIff` | kernel/sysfile.c:119-166 | for all paths: `link` succeeds if and only if the old path leads to a file that is no directory and the new one to a free place with room; refuses, changing nothing, exactly in the listed cases; adds exactly that one name; the new path then leads to the file; kinds and other counts stay |
| `DirEffects.AddsKeepsLookups` | kernel/sysfile.c:119-166 | every lookup that found something before a name was added finds the same after |
| `DirEffects.UnlinkIff` | kernel/sysfile.c:184-239 | in a file system that obeys the law: `unlink` succeeds if and only if the path leads to an entry, other than "." and "..", of a file or of a directory that lists nothing but these; refuses, changing nothing, exactly otherwise; takes exactly that name away, after which the path leads nowhere, and the right links |
| `DirEffects.DropsAddsNothing` | kernel/sysfile.c:184-239 | every lookup that finds something after a name is gone found the same before |
| `DirEffects.CreateIff` | kernel/sysfile.c:241-284 | for all paths: `create` makes an inode if and only if the path leads to a free place with room, and gives an existing file exactly when a file is asked for and the path leads to something that is no directory; the new inode has its kind, one link and the one name, a directory also "." and "..", and the path leads to it |
| `LinkRuns.DeadDirectory` | kernel/sysfile.c:119-166 | mkdir, unlink of the directory while a process stands in it, then link or create in it: success, and a count that is not the number of names |
| `LinkRuns.LinkTooMany` | kernel/sysfile.c:119-166 | from a fresh file system, creates and 32767 links that all succeed, a count of -32768, and a panic at the next unlink |
| `PageRam.NoSharing` | kernel/vm.c:308-336 | two user pages mapped to the same physical page are the same page of the same process |
| `Vm.Memory.Kfree` | kernel/kalloc.c:46-63 | the page joins the free list and loses its contents |
| `Vm.Memory.Kalloc` | kernel/kalloc.c:68-82 | it returns the head of the free list, a page nobody used, and fails exactly when the list is empty |
| `Vm.Memory.Walk` | kernel/vm.c:71-89 | it finds the entry the three-level tables hold for the page, changing nothing without `alloc`; with it no mapping of any process changes, at most two pages are used, and it fails only when memory is out |
| `Vm.Memory.Mappages` | kernel/vm.c:148-168 | exactly the pages of the range are mapped to consecutive physical pages, all of them or, when memory is out, a prefix; no other mapping changes |
| `Vm.Memory.Uvmunmap` | kernel/vm.c:173-195 | exactly the range is unmapped, and its pages are freed when asked |
| `Vm.Memory.Freewalk` | kernel/vm.c:274-290 | all table pages of the tree and no others become free |
| `Vm.Memory.Uvmcreate` | kernel/vm.c:199-208 | a new tree without mappings, or failure exactly when memory is out |
| `Vm.Memory.Uvmfree` | kernel/vm.c:294-300 | the process owns no page any more, and the other processes are unchanged |
| `Vm.Memory.Uvmalloc` | kernel/vm.c:228-252 | on success the new pages are mapped, zeroed and owned by this process alone; on failure the mappings are as before and there were at most three free pages for each new page |
| `Vm.Memory.Uvmdealloc` | kernel/vm.c:258-270 | exactly the pages past the new size are unmapped and freed |
| `Vm.Memory.Uvmclear` | kernel/vm.c:340-349 | that page alone loses user access |
| `Vm.Memory.Walkaddr` | kernel/vm.c:94-112 | the physical page of a user page, and zero for every other address |
| `Vm.Memory.Copyout` | kernel/vm.c:354-374 | the bytes up to the first page that is not the user's are stored and no other byte of any process changes; it succeeds exactly when all are |
| `Vm.Memory.Copyin` | kernel/vm.c:379-399 | it succeeds exactly when every byte is on a user page, and the bytes are the ones there |
| `Vm.Memory.CopyRoundTrip` | kernel/vm.c:354-399 | what was copied out is copied in again, and both succeed exactly when the whole range is the user's |
| `Vm.Memory.Uvmcopy` | kernel/vm.c:308-336 | on success the child has its own pages with the parent's bytes and permissions; on failure its mappings are undone and there were at most three free pages for each page to copy; the parent is unchanged |
| `Exec.ProcPagetable` | kernel/proc.c:158-186 | a table with the trampoline and the trapframe and nothing else, or failure with every page given back |
| `Exec.ProcFreepagetable` | kernel/proc.c:191-196 | the process owns no page any more, the others are unchanged |
| `Exec.Loadseg` | kernel/exec.c:135-157 | the bytes of the segment are in the image at its address, and it fails exactly when the file is short |
| `Exec.Process.Build` | kernel/exec.c:42-107 | the new image has the segments, the guard page, the stack with the argument strings and their pointers, or every page is given back; it fails only for a bad program, arguments that do not fit, or too little memory |
| `Exec.Process.Exec` | kernel/exec.c:12-132 | success replaces the image by the new one, frees all pages of the old one and sets entry, stack and argument registers; failure leaves the process and every page in use as they were, and happens only for a bad program, arguments that do not fit, or too little memory |
| `Exec.Process.Growproc` | kernel/proc.c:238-254 | the image grows by zeroed pages or shrinks by exactly the pages past the end, a failure changes no mapping, and shrinking below zero does nothing |
| `ExecLayout.EndIsLargest` | kernel/exec.c:42-64 | the program ends at the largest end of a loaded segment |
| `ExecLayout.SegmentsOkIff` | kernel/exec.c:42-64 | the program headers pass if and only if each can be read and each to be loaded has its file part within its memory part and all there, starts at a page boundary, ends below 2^64, and it or an earlier one is not empty |
| `ExecLayout.ByteIsLast` | kernel/exec.c:42-64 | at each address the program finds the byte of the last segment that has one, and 0 where none has |
| `ExecLayout.ArgsFitIff` | kernel/exec.c:79-107 | the arguments fit if and only if there are at most MAXARG and the strings, each with its 0 and rounded up to 16 bytes, and the vector of pointers, rounded up, take at most a page; the vector lies exactly below the strings |
| `Scheduling.NoDoubleRun` | kernel/proc.c:456-529 | in every run no process is run by two processors, and a process that is runnable or a zombie while its stack is still in use is locked by that processor, so no other can pick it |
| `Scheduling.ReusedStackIsFree` | kernel/proc.c:136-153 | in every run, when a zombie is reaped or a free slot is taken, no processor stands on that kernel stack |
| `Scheduling.OneHolder` | kernel/sleeplock.c:21-41 | in every run a sleep lock has one holder, and it is marked locked exactly while there is one, also while the holder sleeps |
| `Scheduling.NoLostWakeup` | kernel/proc.c:554-600 | in every run nobody sleeps, or is about to sleep, on a sleep lock that is free with its spin lock released |
| `Scheduling.HandOver` | kernel/proc.c:493-518 | in every run a process switching out or just switched in has its lock held by the processor that runs it |
| `SwitchLocks.OneLockHeld` | kernel/proc.c:493-518 | in every run the processor of a process about to switch out, or just switched in, holds that process's lock and no other process's |
| `Wakeups.WokenIff` | kernel/proc.c:585-636 | in every run, for every channel: a turn of a running process makes a sleeping process runnable if and only if it is that of `wakeup` on its channel with its lock held, or of `kill`; nothing else about a sleeper changes |
| `Wakeups.SchedulerTurn` | kernel/proc.c:456-486 | a scheduler thread wakes nobody up and runs only a runnable process |
| `Wakeups.InterruptTurn` | kernel/proc.c:585-600 | `wakeup` in an interrupt handler, for every channel: the process whose lock it holds becomes runnable exactly when it sleeps on that channel, and no other changes |
| `Wakeups.FreedIff` | kernel/proc.c:397-447 | in every run a zombie's slot becomes free if and only if the turn is that of `wait` with its lock, and a free one gets a new process if and only if it is that of `fork` |
| `Wakeups.AcquiresOrWaits` | kernel/sleeplock.c:21-31 | in every run a process in `acquiresleep` is still in it after its turn, or holds the lock |
| `Wakeups.SleepsOnChannel` | kernel/proc.c:554-583 | in every state of a run a process in `sleep` sleeps on the channel it was called with, keeps it while switched out, and when it goes on has no channel and the lock it had |
| `ExitWait.ParentsLive` | kernel/proc.c:305-327 | in every run each process but `init` has a parent that has not exited |
| `ExitWait.ReapedOnceByParent` | kernel/proc.c:397-447 | in every run a slot is freed only by its parent, from a zombie off its stack, and no process is reaped twice |
| `ExitWait.SleeperHasNoZombie` | kernel/proc.c:332-447 | in every run a process asleep in `wait` has no zombie child, except `init` with a child handed to it |
| `WaitKids.SleeperHasKid` | kernel/proc.c:397-447 | in every run a process asleep in `wait` has a child |
| `InitWait.WaitGivesUpIff` | kernel/proc.c:397-447 | in every run a `wait` that has looked through all slots and is not killed returns -1 if and only if no slot has the process as its parent, and otherwise sleeps; so also for `init`, which is handed children meanwhile |
| `Families.StepAffects` | kernel/proc.c:260-447 | in every run a step does to another process exactly this: `fork` makes it, with the caller as its parent; `exit` hands a child to `init`; `wait` frees a zombie child; `exit` wakes `init` and then its parent |
| `Families.ParentUntilExit` | kernel/proc.c:260-393 | in every run a process's parent is the same process until that one exits, and from then on `init` |
| `InitMiss.MissIff` | kernel/proc.c:305-393 | a step makes `init` sleep with a zombie child if and only if it is one of three: a zombie handed over while `init` sleeps, a child's exit whose wakeup went to its former parent, or `init` going to sleep after scanning past a child that has exited since |
| `InitMiss.MissHasMaker` | kernel/proc.c:305-393 | every run that reaches such a state contains one of these steps |
| `InitMiss.InitMissesWakeup` | kernel/proc.c:305-327 | a run with four process slots that ends with the exiting process gone, no lock held, and `init` asleep with a zombie child |
| `ExitDeadlock.CycleHasStale` | kernel/proc.c:363-382 | in every run, processes of `exit`, `wait` and `fork` that wait for each other's locks in a circle of any length include an exiting one that holds the lock of a slot that is not its parent's any more |
| `ExitDeadlock.MutualIff` | kernel/proc.c:363-382 | in every run two processes block each other if and only if one is about to lock itself, or a child of its own, and the other a child of its own, each in the slot the other has locked |
| `ExitDeadlock.MutualStays` | kernel/proc.c:363-382 | in every run two such processes still block each other after any further step |
| `ExitDeadlock.ExitDeadlocks` | kernel/proc.c:363-382 | a run with four process slots that reaches such a state: the parent's slot is taken by a grandchild while a process waits for its lock |
| `Virtio.Disk.Alloc3Desc` | kernel/virtio_disk.c:154-166 | three different free descriptors are taken, or none; it fails exactly when fewer than three are free |
| `Virtio.Disk.Submit` | kernel/virtio_disk.c:168-236 | the request is queued last with its chain and buffer, no other request changes, and it fails exactly when fewer than three descriptors are free |
| `Virtio.Disk.Take` | kernel/virtio_disk.c:219-233 | the device takes requests in the order they were queued, though the ring's index wraps |
| `Virtio.Disk.Complete` | kernel/virtio_disk.c:251-270 | a request the device has taken is completed in the used ring, after the ones completed before it |
| `Virtio.Disk.PendingExact` | kernel/virtio_disk.c:251-270 | the handler's test of indices modulo the ring's size is true exactly when a completed request is undelivered |
| `Virtio.Disk.Deliver` | kernel/virtio_disk.c:251-270 | the oldest completed request's buffer is handed back and no other; a bad status panics with nothing changed |
| `Virtio.Disk.Intr` | kernel/virtio_disk.c:251-270 | with device steps between its turns, each request is delivered at most once, the completed ones in order, none is left, and a buffer is with the disk exactly while it is undelivered |
| `Virtio.Disk.FreeChain` | kernel/virtio_disk.c:141-152 | exactly the three descriptors of the chain become free |
| `Virtio.Disk.Finish` | kernel/virtio_disk.c:238-249 | the request goes, its three descriptors are free again, and no other request changes |
| `Pipe.Pipe.Pipewrite` | kernel/pipe.c:76-100 | bytes enter in order and none is lost or doubled although the counters wrap; when it returns, fails or sleeps; and it breaks the sleeping guarantee exactly under the condition above |
| `Pipe.Pipe.Piperead` | kernel/pipe.c:102-127 | bytes leave in the order they entered; when it returns, fails or sleeps; the one byte lost is the one that could not be copied out |
| `Pipe.Pipe.Pipeclose` | kernel/pipe.c:58-74 | the end is closed and the other side's sleepers are woken |
| `Pipe.Pipe.Kill` | kernel/proc.c:617-636 | a killed process sleeps on neither channel, and the guarantee is kept |
| `Pipe.KilledWriterLosesWakeup` | kernel/pipe.c:76-100 | an empty pipe, a sleeping reader, a killed writer of 513 bytes: the pipe is full and the reader sleeps |
| `ShellTokens.GetTokenLoop` | user/sh.c:265-308 | the loops compute the token function: kind, word bounds and next position |
| `ShellTokens.PeekLoop` | user/sh.c:310-320 | the next character that is not white space is one of those asked for |
| `ShellParser.ParseRedirsLoop` | user/sh.c:374-397 | the loop collects redirections as the grammar says, or reports the missing file |
| `ShellParser.ParseArgsLoop` | user/sh.c:415-446 | the loop collects words and redirections, those after a word among them, as the grammar says, or reports an error |
| `ShellParser.ParseBacksLoop` | user/sh.c:344-359 | each trailing `&` wraps the command once |
| `ShellRoundTrip.RoundTrip` | user/sh.c:327-446 | every command tree within the argument limit, printed and parsed, is that tree again: words, redirections with their descriptors, pipes, lists, background and blocks |
| `ShellRoundTrip.TooManyWords` | user/sh.c:415-446 | MAXARGS words or more are an error |
| `ShellGrammar.RedirectsParse` | user/sh.c:374-397 | redirections with any white space in them are read in order |
| `ShellGrammar.ArgsParse` | user/sh.c:415-446 | words with redirections between and after them are read as those words in order and those redirections in order |
| `ShellGrammar.SourceParses` | user/sh.c:327-446 | every line of the grammar, with any white space, parses as what it means: redirections before, between and after words, the first innermost; `|` binds tighter than `&`, `&` tighter than `;`; `|` and `;` group to the right |
| `ShellAccepts.AcceptedIsSource` | user/sh.c:327-446 | what the parser accepts is a line of that grammar, and the command it gives is what that line means |
| `ShellAccepts.AcceptsIff` | user/sh.c:327-446 | a line is accepted if and only if it is one of the grammar followed by white space |
| `ShellStrings.Nulterminate` | user/sh.c:449-493 | the buffer gets a NUL at the end of every recorded word and nowhere else |
| `ShellStrings.StringsAreWords` | user/sh.c:449-493 | for every line that parses, the C string at each recorded word is then exactly that word |
| `FreeList.FreeCorrect` | user/umalloc.c:24-44 | the pointer assignments of `free` release exactly that block, joined with both neighbours it touches; ring and live blocks still tile the memory obtained, and no two free blocks touch |
| `FreeList.TakeCorrect` | user/umalloc.c:74-83 | unlinking a block that fits exactly keeps that tiling |
| `FreeList.SplitCorrect` | user/umalloc.c:74-83 | giving the tail of a larger block keeps it |
| `FreeList.ExtendCorrect` | user/umalloc.c:46-61 | a piece from `sbrk` above the break keeps it |
| `Malloc.Allocator.Free` | user/umalloc.c:24-44 | exactly that block stops being live, its bytes are free, the heap stays sound |
| `Malloc.Allocator.Sbrk` | kernel/sysproc.c:41-53 | a positive size is granted above all memory given before, or refused exactly when memory is full or has no room; a negative one takes memory back and is never refused |
| `Malloc.Allocator.Morecore` | user/umalloc.c:46-61 | it fails exactly when `sbrk` refuses, with the heap as before; on success a free block of the size asked for is in the list, and the memory got is at least 4096 headers above all given before, if the size fits an `int` |
| `Malloc.Allocator.Malloc` | user/umalloc.c:63-90 | for every request: null exactly when no free block is large enough and `sbrk` refuses; `sbrk` is called only when none is, for at least 4096 headers; the block returned overlaps no live block and is of the size asked for; it is memory of the process if and only if the request is at most MAX_REQUEST |
| `Malloc.RoomFor` | user/umalloc.c:63-72 | the headers taken for a request are the least number that holds it and its header |
| `Malloc.GrowthFitsExactly` | user/umalloc.c:46-61 | the size passed to `sbrk` as an `int` is the one meant if and only if the request is at most MAX_REQUEST |
| `Malloc.HugeRequest` | user/umalloc.c:63-90 | a first request of the largest `uint`, in any process with room for 16 bytes more: it is granted, and the block is not memory of the process |

## Left out

- Malloc.Allocator.Malloc: called again after a request above MAX_REQUEST was granted; the heap is not backed by memory then.
- RedoLog.Log.LogWrite: a listed block stays in the cache, as its pin is meant to ensure; `LogCounts` says when it does. The same holds of Transactions.
- Files.FileSystem.Writei: when a copy from user memory fails, bytes that reached only the buffer of an unlogged block count as contents; the logged set says that the block is not written.
- Files.FileSystem.Filewrite: stated for offsets and lengths whose sum fits 32 bits and files within the largest size.
- Files.FileSystem.Iput: the reference and link counts are arguments, not fields of an inode cache.
- Directories.Directories.Create: the number of the new inode is an argument; `ialloc`'s scan and running out of inodes are not modelled.
- Directories.Directories.Dirlink: the disk does not run out of blocks while a directory grows, and inode numbers fit the 16 bits of an entry.
- Transactions.ReservationHolds: that an operation adds at most MAXOPBLOCKS entries is a rule of the step; how many blocks the operations log is stated in `Files` and `OpLogs`.
- BufferCache.Cache.Bget: fewer than 2^32 - 1 references, and no recovered log since boot; `Reference` has neither condition.
- InitMiss.MissHasMaker: says which steps lead to a missed wakeup, not that a later wakeup ends it.
- Scheduling.NoLostWakeup: the parent's lock nested in `exit` is modelled in ExitWait, not in Scheduling.
- OpLogs.CreateBlocks: the directory's own reference is not its last one.
- Vm.Memory.Mappages: remapping a mapped page is a panic in the source and excluded here.
- The inode cache: `iget`, `idup`, `ilock`, reference counts, and the device comparison in `link`.
- Open files and descriptors, and the system calls' fetching of arguments.
- Memory ordering, spin locks below the level of acquire and release, interrupts and their nesting.
- Progress: that a waiting process ever runs. The pid and exit status that `wait` returns.
- The kernel's own page table, `uvminit`, `copyinstr`, traps and context-switch assembly.
- UART, console, PLIC, the RAM disk and `printf`.
- `mkfs`, apart from the size it gives the log, and the user programs other than the shell's parser and `malloc`.
- The shell's `runcmd`, which forks and executes.
