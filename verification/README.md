# A Dafny model of xv6 and of a journaling pipeline

The project models the stateful cores of two small systems: the xv6 kernel with a
multilevel feedback queue, its `mkfs`, allocator, shell and `grep`, and a three-stage
metadata journaling service. Each core has a specification, usually a state machine or a
simple mathematical object, and the code's operations as Dafny methods proved against it.

| files | core | specified as |
|---|---|---|
| `LogSpec`, `LogSpace`, `Log` | redo log | an atomic disk under crashes |
| `DiskBytes`, `FsSpec`, `FileSystem`, `FullTransaction`, `Mkfs` | block-mapped files, image builder | byte arrays with disjoint block ownership |
| `CrashConsistency` | file system over the log | a sequence of whole transactions |
| `CacheSpec`, `BufferCache` | buffer cache | a flat map of blocks |
| `Sv39`, `VmSpec`, `Vm`, `AddressSpaces` | page tables, page allocator, processes' memory | a flat map from page numbers, conservation of pages, private memories |
| `HeapSpec`, `Heap` | user-level malloc | disjoint intervals |
| `QueueTable`, `ProcSpec`, `ProcEffects`, `ProcTable`, `Requeue` | scheduler queues, process table | three FIFO sequences, and a tree of processes |
| `SleepLock` | sleep, wakeup, sleep locks | interleaved steps |
| `RingBuffer`, `JournalSpec` | journaling pipeline | interleaved steps of writers and three threads |
| `VirtioSpec`, `VirtioDisk` | disk driver and device | driver and device steps |
| `Regex`, `Grep` | pattern matching, line buffering | languages, and selection of lines |
| `ShellSpec`, `ShellGrammar`, `Shell` | command parser | a grammar over tokens |
| `Collections`, `Params` | shared by the others | |

`dafny verify dfyconfig.toml` checks all of it.

## How to read it

A machine is a `State`, an `Enabled` predicate, a `Do` function and an inductive datatype
`Run`; a lemma `RunInv` shows the invariant for every legal run, and the lemmas after it say
what that means for users. The classes keep a ghost `run` and prove that each operation is
one step, or a stated sequence of steps, of the machine. Where an operation only reads or
computes, its `ensures` ties it to a function or states the result outright. A panic that
callers can bring about is a result of the operation. The time at which an interrupt, a
crash, a failed allocation or a short read happens is left open, as a step or a parameter.

In `Vm` and `VirtioDisk` the bookkeeping of the model (which page is which table, who owns a
page, which request is where) is part of the state value; the operations branch only on what
the code has: page contents and free list, descriptors and rings.

`hide` statements keep definitions that a proof does not need out of it.

## Where the code and a natural expectation part

- `log_write` tests for room before absorption and against the size of the log area. With the
  log that `mkfs` formats, operations that keep to their reservation can reach the panic
  (`LogSpace.SmallLogPanics`); with any larger one they still can by repeating a block
  (`LogSpace.LargeLogPanics`). `LogSpace.LogWritePanics` says exactly when.
- `morecore` passes a byte count through an `int`. From 2^27 units on, less memory is obtained
  than recorded (`HeapSpec.SbrkArgumentExact`, the `Overrun` result of `Heap.Allocator.Malloc`).
- `mkfs` rounds the root directory up by a whole block, so that a directory that fills its
  blocks covers an unallocated one (`Mkfs.RootDense`).
- `kill(0)` finds an unused slot, whose mark the next process in it inherits
  (`ProcSpec.KillZeroMarksNextChild`); `ProcSpec.BornKilled` says exactly which.
- `nice` requeues a process while it runs, which no table of RUNNABLE processes survives;
  without a requeue the queues are kept (`ProcTable.Kernel.SysNice`). After a requeue a process
  can become the head of its level for good (`Requeue.NiceThenYield`, `Requeue.StuckForever`),
  or a RUNNABLE process can drop out of all queues (`Requeue.ForkThenNice`,
  `Requeue.LostForever`), until the next boost. Without a requeue the top queue is never used
  (`ProcSpec.TopNeedsRequeue`). The machine in `ProcSpec` lets nice values change at any time
  and leaves the requeue out: its runs include those of the code without a requeue, and more.
- `grep` stops reading at the first line of 1023 characters or more (`Grep.Run`).
- The journal's ring operations do not check for overflow or underflow
  (`RingBuffer.Unchecked`); the semaphores around them rule both out (`JournalSpec.NoOverflow`).
- A copy fault in `writei` can leave bytes changed beyond the count it returns
  (`FileSystem.FaultExample`); `FileSystem.FaultChangesMore` says exactly when. That block is
  logged only if this write allocated it.

## Model

| member | source | states |
|---|---|---|
| `LogSpec.HeaderRoundTrip` | XV6 Multilevel feedback queue/xv6-riscv/kernel/log.c:85-114 | A header block holds the count and then the block numbers; reading it back after writing it gives the header that was written, whatever the block held before. |
| `LogSpec.CrashSafety` | XV6 Multilevel feedback queue/xv6-riscv/kernel/log.c:67-235 | In every run of operations, log writes, commits, evictions, recovery steps and crashes, cut after any disk write including those of recovery, the home blocks that recovery would rebuild are those of replaying a prefix of what the calls of the run asked for, in which every operation that began has ended. |
| `LogSpec.HistoryIsAsked` | XV6 Multilevel feedback queue/xv6-riscv/kernel/log.c:125-235 | The history, and how much of it is durable, are those of the calls of the run: begins, writes and ends in order, covered by each commit's header write, cut back by each crash. |
| `LogSpec.CommitPoint` | XV6 Multilevel feedback queue/xv6-riscv/kernel/log.c:99-114 | The durable prefix grows exactly at the header write of a commit, and then to the whole history; a crash discards what lies beyond it; no other step changes it. |
| `LogSpec.ReadsSeeWrites` | XV6 Multilevel feedback queue/xv6-riscv/kernel/log.c:205-235 | While operations run or a commit is under way, a read of a home block sees every write so far, durable or not. |
| `LogSpec.QuiescentDiskIsHistory` | XV6 Multilevel feedback queue/xv6-riscv/kernel/log.c:144-203 | With no operation open, the disk itself holds the whole history and the log is empty. |
| `LogSpec.RedoAbsorbs` | XV6 Multilevel feedback queue/xv6-riscv/kernel/log.c:67-83 | Redoing one logged block early does not change what a redo from scratch gives, so recovery may be cut and repeated. |
| `LogSpec.RunInv` | XV6 Multilevel feedback queue/xv6-riscv/kernel/log.c:67-235 | The log invariant holds after every legal run. |
| `LogSpace.LogSpaceSuffices` | XV6 Multilevel feedback queue/xv6-riscv/kernel/log.c:125-142 | If each operation logs at most MAXOPBLOCKS new blocks, header entries plus unused reservations never exceed LOGSIZE. |
| `LogSpace.LogWritePanics` | XV6 Multilevel feedback queue/xv6-riscv/kernel/log.c:214-235 | log_write of a block not yet in the header panics exactly when the log area has at most LOGSIZE blocks and is full; of a block already there, exactly when the header is full, because the guard precedes absorption. |
| `LogSpace.SmallLogPanics` | XV6 Multilevel feedback queue/xv6-riscv/mkfs/mkfs.c:23-26 | For every log of at most LOGSIZE blocks, as mkfs formats it, there is a disciplined run of three operations that reaches the panic. |
| `LogSpace.LargeLogPanics` | XV6 Multilevel feedback queue/xv6-riscv/kernel/log.c:214-235 | For every log of more than LOGSIZE blocks there is a disciplined run that reaches the panic on a block already in the header. |
| `LogSpace.OperationDisciplined` | XV6 Multilevel feedback queue/xv6-riscv/kernel/log.c:125-142 | An operation that logs any blocks in any order keeps the discipline that LogSpaceSuffices asks for if at most MAXOPBLOCKS of them are different, which is what FileSystem.Volume.Writei ensures of a chunk. |
| `Log.LogDevice.StoreHead` | XV6 Multilevel feedback queue/xv6-riscv/kernel/log.c:99-114 | write_head puts the encoded header, and nothing else, into memory and on disk. |
| `Log.LogDevice.LoadHead` | XV6 Multilevel feedback queue/xv6-riscv/kernel/log.c:85-97 | read_head is the machine's ReadHead step. |
| `Log.LogDevice.WriteLog` | XV6 Multilevel feedback queue/xv6-riscv/kernel/log.c:177-191 | write_log is exactly n WriteLogBlock steps, one disk write each. |
| `Log.LogDevice.InstallTrans` | XV6 Multilevel feedback queue/xv6-riscv/kernel/log.c:67-83 | install_trans is exactly n install steps, for a commit or for recovery. |
| `Log.LogDevice.RecoverFromLog` | XV6 Multilevel feedback queue/xv6-riscv/kernel/log.c:116-123 | Recovery leaves the home blocks equal to the replayed history and an empty log, by a stated sequence of disk writes. |
| `Log.LogDevice.TryBeginOp` | XV6 Multilevel feedback queue/xv6-riscv/kernel/log.c:125-142 | begin_op admits an operation exactly when no commit runs and the reservations fit. |
| `Log.LogDevice.LogWrite` | XV6 Multilevel feedback queue/xv6-riscv/kernel/log.c:205-235 | log_write updates the buffer and appends the block unless it is absorbed; it panics exactly when the header is full, or else when no operation is open, and then leaves memory and header alone. |
| `Log.LogDevice.Commit` | XV6 Multilevel feedback queue/xv6-riscv/kernel/log.c:193-203 | commit performs log writes, header write, installs and header clear in that order, and ends with the disk equal to the history. |
| `Log.LogDevice.EndOp` | XV6 Multilevel feedback queue/xv6-riscv/kernel/log.c:144-175 | The last operation out commits for the group; others write nothing. |
| `DiskBytes.BitSetAt` | XV6 Multilevel feedback queue/xv6-riscv/kernel/fs.c:72-80 | Setting a clear bit changes that bit only. |
| `DiskBytes.BitClearedAt` | XV6 Multilevel feedback queue/xv6-riscv/kernel/fs.c:98-104 | Clearing a set bit changes that bit only. |
| `DiskBytes.WordOfWithWord` | XV6 Multilevel feedback queue/xv6-riscv/kernel/fs.c:403-414 | Storing an indirect entry changes that entry only, as little-endian bytes. |
| `FsSpec.GrownOwnership` | XV6 Multilevel feedback queue/xv6-riscv/kernel/fs.c:379-421 | Giving a free block to an empty slot keeps all addresses distinct, in range and exactly the marked data blocks. |
| `FsSpec.PatchBytes` | XV6 Multilevel feedback queue/xv6-riscv/kernel/fs.c:506-539 | Overwriting part of the data block of one file changes exactly those bytes of that file, and no address. |
| `FsSpec.ByteOnDisk` | XV6 Multilevel feedback queue/xv6-riscv/kernel/fs.c:379-421 | Where each byte of a file is on the disk: in one of twelve direct blocks, or in a block that a little-endian word of the indirect block names. |
| `FsSpec.UsedOnDisk` | XV6 Multilevel feedback queue/xv6-riscv/kernel/fs.c:63-105 | Which bit of which byte of which block says whether a block is in use. |
| `FsSpec.TruncatedOwnership` | XV6 Multilevel feedback queue/xv6-riscv/kernel/fs.c:423-453 | Emptying an inode and unmarking exactly what it owned keeps the ownership invariant and every other file's bytes. |
| `FileSystem.Volume.Balloc` | XV6 Multilevel feedback queue/xv6-riscv/kernel/fs.c:63-88 | balloc returns the lowest free block, marked and zeroed, or 0 when all are used. |
| `FileSystem.Volume.Bfree` | XV6 Multilevel feedback queue/xv6-riscv/kernel/fs.c:90-105 | bfree clears the bit of a used block and reports a free one as its panic. |
| `FileSystem.Volume.Bmap` | XV6 Multilevel feedback queue/xv6-riscv/kernel/fs.c:379-421 | bmap keeps ownership and all file bytes, returns the address of the block, allocates only the slot and the indirect pointer concerned, and fails only when no block is free. |
| `FileSystem.Volume.Itrunc` | XV6 Multilevel feedback queue/xv6-riscv/kernel/fs.c:423-453 | itrunc frees exactly the inode's blocks, and none of its calls of bfree, direct or indirect, meets a free one; it empties the file, leaves the other files alone, changes no disk block that is not logged, and logs only its inode block and blocks of the free map. |
| `FileSystem.Volume.Writei` | XV6 Multilevel feedback queue/xv6-riscv/kernel/fs.c:498-539 | writei rejects exactly the ranges that the code rejects. Otherwise the written bytes lie over the file and every other byte of every file is unchanged; the count is n, or the disk is full, or the source ends early, and then it is where the last block was begun; density is kept; only slots of the written range are filled; every changed disk block is logged, but for the one in which a copy faulted; a chunk that starts in an allocated block or at a boundary logs at most MAXOPBLOCKS blocks. |
| `FileSystem.FaultChangesMore` | XV6 Multilevel feedback queue/xv6-riscv/kernel/fs.c:506-539 | Of every way in which writei ends: bytes are changed beyond the count that it returns exactly when the source was read to its end, before the disk filled up, and ends early inside a block. |
| `FileSystem.FaultExample` | XV6 Multilevel feedback queue/xv6-riscv/kernel/fs.c:506-539 | A write of 1024 bytes of which 512 can be read changes 512 bytes and counts none. |
| `FileSystem.Volume.Readi` | XV6 Multilevel feedback queue/xv6-riscv/kernel/fs.c:467-496 | readi delivers the file's contents from the offset, and no more than fits the destination; of a dense file it delivers all that was asked for up to the end of the file, or -1 if that does not fit, and nothing changes. |
| `FileSystem.OverlaidContents` | XV6 Multilevel feedback queue/xv6-riscv/kernel/fs.c:467-539 | After a write, the contents read back are the old ones overlaid with the new bytes, across the direct/indirect boundary; other files' contents are unchanged. |
| `FileSystem.BudgetTotal` | XV6 Multilevel feedback queue/xv6-riscv/kernel/file.c:148-175 | Four data, three map, one indirect, one more map and one inode block: a chunk logs at most ten distinct blocks. |
| `FileSystem.TenBlocks` | XV6 Multilevel feedback queue/xv6-riscv/kernel/file.c:148-175 | The bound of ten is reached: an unaligned full chunk that crosses the end of the direct blocks and allocates the indirect block logs exactly ten blocks when its four new blocks lie in four different map blocks. |
| `FullTransaction.WideOwnership` | XV6 Multilevel feedback queue/xv6-riscv/kernel/fs.c:379-421 | A volume with five map blocks, one free block under each, 92 files of maximal length and one of twelve blocks has the ownership invariant. |
| `FullTransaction.NotFull` | XV6 Multilevel feedback queue/xv6-riscv/kernel/fs.c:63-88 | No write of a chunk to that file uses up the five free blocks. |
| `FullTransaction.WriteTen` | XV6 Multilevel feedback queue/xv6-riscv/kernel/file.c:148-175 | On that volume writei writes a whole chunk and logs exactly MAXOPBLOCKS blocks. |
| `FileSystem.Volume.FileWrite` | XV6 Multilevel feedback queue/xv6-riscv/kernel/file.c:148-175 | filewrite returns n exactly when all n bytes were written and -1 otherwise, advances the offset by what was written, takes one transaction for each chunk up to the one that fails, and every transaction on a dense file stays within MAXOPBLOCKS. |
| `CrashConsistency.DiskDecides` | XV6 Multilevel feedback queue/xv6-riscv/kernel/fs.h:31-52 | With the inodes laid out on the disk, the home blocks decide the volume: all volumes that a disk can be read as have the same inodes and bytes, and all or none of them the ownership invariant. |
| `CrashConsistency.LoggedTransaction` | XV6 Multilevel feedback queue/xv6-riscv/kernel/fs.c:225-241 | What an operation on one inode has done is a transaction, for any log_writes that leave each logged block with its final contents, when every changed block is logged. |
| `CrashConsistency.WriteFile` | XV6 Multilevel feedback queue/xv6-riscv/kernel/fs.c:498-539 | A writei of a readable source is a transaction to the volume with the bytes over the file. |
| `CrashConsistency.TruncateFile` | XV6 Multilevel feedback queue/xv6-riscv/kernel/fs.c:423-453 | An itrunc is a transaction to the volume with that file empty. |
| `CrashConsistency.RunInv` | XV6 Multilevel feedback queue/xv6-riscv/kernel/log.c:67-235 | In every run of transactions, log steps and crashes the history up to each mark leaves the volume of that transaction, and where no operation is open nothing has been written since the last mark. |
| `CrashConsistency.CrashConsistent` | XV6 Multilevel feedback queue/xv6-riscv/kernel/log.c:67-235 | After a crash at any disk write, those of recovery included, recovery rebuilds the volume that the first so many transactions have left, with the ownership invariant and with the bytes of every file. |
| `CrashConsistency.AnyVolume` | XV6 Multilevel feedback queue/xv6-riscv/kernel/log.c:53-65 | Such runs begin with any volume that has the ownership invariant, under an empty log. |
| `CrashConsistency.TrailOfTransactions` | XV6 Multilevel feedback queue/xv6-riscv/kernel/log.c:67-235 | The volumes in question are those of a sequence of transactions from the first volume on, with nothing left out. |
| `CrashConsistency.CommitKeepsAll` | XV6 Multilevel feedback queue/xv6-riscv/kernel/log.c:99-114 | The header write of a commit makes every transaction so far durable. |
| `CrashConsistency.DurableStays` | XV6 Multilevel feedback queue/xv6-riscv/kernel/log.c:67-203 | No step, a crash included, loses a transaction that was durable. |
| `CrashConsistency.CurrentVolume` | XV6 Multilevel feedback queue/xv6-riscv/kernel/log.c:144-235 | Between transactions reads see the current volume, and with no operation open it is on the disk. |
| `Mkfs.MapUpToBit` | XV6 Multilevel feedback queue/xv6-riscv/mkfs/mkfs.c:234-248 | After mkfs's balloc loop exactly the first n bits of the map are set. |
| `Mkfs.CountClaims` | XV6 Multilevel feedback queue/xv6-riscv/mkfs/mkfs.c:250-294 | Handing out the counter's block is allocating the lowest free block of the map to be written. |
| `Mkfs.Builder.Iappend` | XV6 Multilevel feedback queue/xv6-riscv/mkfs/mkfs.c:250-294 | iappend puts the bytes at the end of the file, changes no other file, and allocates no block beyond the file's end; it takes exactly the blocks that the size needs, and fails exactly when image or file cannot hold them. |
| `Mkfs.Builder.WriteMap` | XV6 Multilevel feedback queue/xv6-riscv/mkfs/mkfs.c:234-248 | The map block written is the one of the first `used` blocks. |
| `Mkfs.Builder.Finish` | XV6 Multilevel feedback queue/xv6-riscv/mkfs/mkfs.c:160-173 | The finished image has the ownership invariant, all files keep their bytes, and the root directory is dense exactly when its entries do not fill whole blocks. |
| `Mkfs.Builder.Build` | XV6 Multilevel feedback queue/xv6-riscv/mkfs/mkfs.c:97-173 | mkfs succeeds exactly when the files, their indirect blocks and the directory fit; then the image has block ownership, every file's data, and a root directory whose entries read, little-endian, as '.' and '..' for the root and as the first 14 bytes of each file's name for its inode; the root directory covers an unallocated block exactly when the number of entries is a multiple of 64. |
| `Mkfs.EntriesRead` | XV6 Multilevel feedback queue/xv6-riscv/mkfs/mkfs.c:112-158 | The bytes that mkfs appends to the root directory read back as its entries. |
| `Mkfs.RootDense` | XV6 Multilevel feedback queue/xv6-riscv/mkfs/mkfs.c:163-168 | Rounding the root directory's size as the code does covers a missing block exactly when the size was a multiple of BSIZE. |
| `CacheSpec.RunInv` | XV6 Multilevel feedback queue/xv6-riscv/kernel/bio.c:36-151 | In every disciplined run the list holds each buffer once, no block has two buffers, references are counted, valid buffers agree with the flat view and unreferenced ones with the disk. |
| `CacheSpec.Transparent` | XV6 Multilevel feedback queue/xv6-riscv/kernel/bio.c:91-103 | A locked valid buffer holds the data of the last edit of its block, through whatever buffer it was made and however often the block has been recycled since. |
| `CacheSpec.ViewIsLastEdit` | XV6 Multilevel feedback queue/xv6-riscv/kernel/bio.c:55-151 | In every run the flat view of a block is the last edit of it, or the initial disk: finding, recycling, filling, writing, pinning and releasing are invisible. |
| `CacheSpec.OneBuffer` | XV6 Multilevel feedback queue/xv6-riscv/kernel/bio.c:63-73 | No block of a real device has two buffers. |
| `CacheSpec.IdentityKept` | XV6 Multilevel feedback queue/xv6-riscv/kernel/bio.c:75-87 | No step changes the identity of a referenced buffer, and only an edit by its holder changes its contents. |
| `CacheSpec.LeastRecentlyReleased` | XV6 Multilevel feedback queue/xv6-riscv/kernel/bio.c:75-87 | The recycled buffer is, among the unreferenced ones, the one whose last release is longest ago; the time of a release is the place in the run of the brelse that gave up the last reference. |
| `CacheSpec.OrderByRelease` | XV6 Multilevel feedback queue/xv6-riscv/kernel/bio.c:36-137 | In every run the list is in the order in which the last references were given up, newest first, told from the steps of the run alone. |
| `CacheSpec.RefcntCounts` | XV6 Multilevel feedback queue/xv6-riscv/kernel/bio.c:55-151 | refcnt is the number of bget and bpin calls of the buffer in the run less that of brelse and bunpin calls. |
| `CacheSpec.LockedSince` | XV6 Multilevel feedback queue/xv6-riscv/kernel/bio.c:55-137 | A buffer is locked exactly if its last lock step came after its last unlock step, and it is locked only when it is not. |
| `CacheSpec.PanicsWhenFull` | XV6 Multilevel feedback queue/xv6-riscv/kernel/bio.c:55-89 | bget panics exactly when the block is not cached and every buffer is referenced. |
| `BufferCache.UnlinkRing` | XV6 Multilevel feedback queue/xv6-riscv/kernel/bio.c:126-129 | Unlinking a buffer leaves a ring through the others in the same order. |
| `BufferCache.PushRing` | XV6 Multilevel feedback queue/xv6-riscv/kernel/bio.c:130-134 | Linking a buffer behind the head leaves a ring that starts with it. |
| `BufferCache.Bcache.constructor` | XV6 Multilevel feedback queue/xv6-riscv/kernel/bio.c:36-53 | binit builds the ring of all buffers, the last one first. |
| `BufferCache.Bcache.Search` | XV6 Multilevel feedback queue/xv6-riscv/kernel/bio.c:65-73 | The walk along next finds the buffer that the specification finds. |
| `BufferCache.Bcache.Oldest` | XV6 Multilevel feedback queue/xv6-riscv/kernel/bio.c:75-87 | The walk along prev finds the victim that the specification finds. |
| `BufferCache.Bcache.Bget` | XV6 Multilevel feedback queue/xv6-riscv/kernel/bio.c:55-89 | bget is the machine's Get step, or panics as specified. |
| `BufferCache.Bcache.Bread` | XV6 Multilevel feedback queue/xv6-riscv/kernel/bio.c:91-103 | bread panics exactly when the block is not cached and every buffer is referenced; it must wait exactly when a buffer of the block is locked, and then has a reference to it; else, by the steps Get, Lock and, unless the block was cached, Fill, it returns a locked buffer with the last edit of the block. |
| `BufferCache.Bcache.LockAndFill` | XV6 Multilevel feedback queue/xv6-riscv/kernel/bio.c:65-103 | Once the lock is free, a process that waited gets the buffer with the last edit of the block, by the steps Lock and, if needed, Fill. |
| `BufferCache.Bcache.Bwrite` | XV6 Multilevel feedback queue/xv6-riscv/kernel/bio.c:105-112 | bwrite puts the buffer on disk, as the machine's Write step, and panics exactly when it is not held. |
| `BufferCache.Bcache.Brelse` | XV6 Multilevel feedback queue/xv6-riscv/kernel/bio.c:114-137 | brelse is the machine's Unlock and Release steps, and panics exactly when the buffer is not held; where a release puts the buffer is what CacheSpec.OrderByRelease says of the run. |
| `BufferCache.Bcache.Bpin` | XV6 Multilevel feedback queue/xv6-riscv/kernel/bio.c:139-144 | bpin is the machine's Pin step. |
| `BufferCache.Bcache.Bunpin` | XV6 Multilevel feedback queue/xv6-riscv/kernel/bio.c:146-151 | bunpin is the machine's Unpin step. |
| `BufferCache.Bcache.MoveToFront` | XV6 Multilevel feedback queue/xv6-riscv/kernel/bio.c:126-134 | The six pointer writes move the buffer to the front of the list and keep the ring. |
| `Sv39.EncodedFields` | XV6 Multilevel feedback queue/xv6-riscv/kernel/riscv.h:335-363 | On the encoded word the C macros and masks read back the page number, the valid bit, the user bit and whether the word is a leaf. |
| `Sv39.IndexInjective` | XV6 Multilevel feedback queue/xv6-riscv/kernel/riscv.h:335-363 | Distinct page numbers below MAXVA reach distinct entries. |
| `Sv39.LinkedRepresents` | XV6 Multilevel feedback queue/xv6-riscv/kernel/vm.c:85-103 | A table added by walk changes no translation. |
| `Sv39.WrittenRepresents` | XV6 Multilevel feedback queue/xv6-riscv/kernel/vm.c:138-192 | Writing one last-level word changes the translation of that page only. |
| `Sv39.HardwareWalk` | XV6 Multilevel feedback queue/xv6-riscv/kernel/riscv.h:335-363 | The translation that the processor performs, level by level from the root, is the one of the flat map, and faults exactly on words that are not valid leaves or are writable but not readable. |
| `VmSpec.FreeSetIs` | XV6 Multilevel feedback queue/xv6-riscv/kernel/kalloc.c:42-82 | In every sound state the free list is exactly the managed pages that are neither tables nor placed, so free, placed and table pages add up to all pages. |
| `VmSpec.NoLeafEmpty` | XV6 Multilevel feedback queue/xv6-riscv/kernel/vm.c:269-287 | freewalk meets a leaf exactly when the address space still has a translation. |
| `VmSpec.OutsideSame` | XV6 Multilevel feedback queue/xv6-riscv/kernel/vm.c:167-192 | Changes confined to a page range keep the word, the owner and the contents of every page outside it, in every address space. |
| `Vm.Kernel.Kalloc` | XV6 Multilevel feedback queue/xv6-riscv/kernel/kalloc.c:65-82 | kalloc takes the first free page, holds it for the caller and leaves every other page and translation alone; it fails exactly when there is none. |
| `Vm.Kernel.Kfree` | XV6 Multilevel feedback queue/xv6-riscv/kernel/kalloc.c:42-63 | kfree puts a held page at the head of the free list and leaves every other page and translation alone. |
| `VmSpec.JunkBytes` | XV6 Multilevel feedback queue/xv6-riscv/kernel/kalloc.c:42-82 | A page handed out holds 5 in every byte, a freed one 1. |
| `Vm.Kernel.Freerange` | XV6 Multilevel feedback queue/xv6-riscv/kernel/kalloc.c:33-40 | freerange adds exactly the pages of the range to the free list. |
| `Vm.Kernel.Walk` | XV6 Multilevel feedback queue/xv6-riscv/kernel/vm.c:73-103 | walk finds the last-level table; without alloc it changes nothing, with alloc it adds at most two tables, which change no translation, and fails only when no page is free. |
| `Vm.Kernel.Walkaddr` | XV6 Multilevel feedback queue/xv6-riscv/kernel/vm.c:105-126 | walkaddr returns the page of the flat map if it is present and user-accessible, else 0. |
| `Vm.Kernel.MapPages` | XV6 Multilevel feedback queue/xv6-riscv/kernel/vm.c:138-165 | mappages maps a prefix of the pages named, all of them unless memory runs out or a page was mapped, and changes no other translation. |
| `Vm.Kernel.Uvmunmap` | XV6 Multilevel feedback queue/xv6-riscv/kernel/vm.c:167-192 | uvmunmap stops, by a panic, exactly at the first page not mapped by a leaf; up to there it unmaps and frees exactly the pages named. |
| `Vm.Kernel.Uvmcreate` | XV6 Multilevel feedback queue/xv6-riscv/kernel/vm.c:194-205 | uvmcreate adds a root without translations, or changes nothing when no page is free. |
| `Vm.Kernel.Uvmalloc` | XV6 Multilevel feedback queue/xv6-riscv/kernel/vm.c:223-249 | Success maps zeroed owned pages over exactly the new range, each valid, readable, the user's, and writable and executable as asked; failure leaves every translation, owner and content as it was, and happens only with fewer than three free pages for each page asked; it panics only on a mapped page or beyond MAXVA. |
| `Vm.Kernel.Uvmdealloc` | XV6 Multilevel feedback queue/xv6-riscv/kernel/vm.c:251-267 | uvmdealloc returns the smaller size and unmaps exactly the pages between the rounded sizes. |
| `Vm.Kernel.FreeWalk` | XV6 Multilevel feedback queue/xv6-riscv/kernel/vm.c:269-287 | freewalk frees exactly the tables of the subtree, and panics exactly when one of them holds a mapping. |
| `Vm.Kernel.Uvmfree` | XV6 Multilevel feedback queue/xv6-riscv/kernel/vm.c:289-297 | uvmfree panics exactly when a page below the size is unmapped or one above is mapped; otherwise nothing of the address space is left and nothing else has changed. |
| `Vm.Kernel.Uvmcopy` | XV6 Multilevel feedback queue/xv6-riscv/kernel/vm.c:299-333 | Success gives the child owned pages with the parent's bytes and flags; failure leaves the child without pages, and happens only with fewer than three free pages for each page copied; in both cases the parent and all others are untouched. |
| `Vm.Kernel.Growproc` | XV6 Multilevel feedback queue/xv6-riscv/kernel/proc.c:508-526 | growproc leaves a process with exactly the pages of its new size, old contents kept, new pages zero and for the user to read and write but not to execute, or, with fewer than three free pages for each one asked, everything as it was; it panics only past MAXVA and touches no other memory. |
| `AddressSpaces.Perform` | XV6 Multilevel feedback queue/xv6-riscv/kernel/proc.c:508-543 | One operation of one process among many changes the private memories as it should, or, with fewer pages free than it may need, is refused and changes none; it uses no more pages than that; memory that belongs to no process is unchanged; only a request past MAXVA panics. |
| `AddressSpaces.DoFork` | XV6 Multilevel feedback queue/xv6-riscv/kernel/proc.c:531-548 | The child starts with the parent's memory; a copy that fails midway is undone. |
| `AddressSpaces.DoStore` | XV6 Multilevel feedback queue/xv6-riscv/kernel/vm.c:348-371 | A page of copyout changes that page of that process only, and nothing where the user has no access. |
| `AddressSpaces.GrowEffect` | XV6 Multilevel feedback queue/xv6-riscv/kernel/proc.c:508-526 | sbrk keeps what stays below the new size; what is new is zero, and the user's to read and write. |
| `AddressSpaces.StoreEffect` | XV6 Multilevel feedback queue/xv6-riscv/kernel/vm.c:348-371 | A store to a page that the user can access is read back, and changes no other page and no other process. |
| `AddressSpaces.ForkEffect` | XV6 Multilevel feedback queue/xv6-riscv/kernel/proc.c:528-548 | A child starts as its parent is, and a later store of either is not seen by the other. |
| `AddressSpaces.GrowThenStore` | XV6 Multilevel feedback queue/xv6-riscv/kernel/vm.c:223-249 | After an sbrk walkaddr finds every new page, and the physical page that it finds holds what was then stored. |
| `AddressSpaces.Interleave` | XV6 Multilevel feedback queue/xv6-riscv/kernel/proc.c:402-584 | Any interleaving of creating, forking, growing, shrinking, writing and freeing address spaces acts on private memories, as if each process were alone. An operation takes effect unless fewer pages are free than it may need, so stores, exits and shrinking always do, and all of them do if the pages that they may need in all are free at the beginning. Processes that are only forked keep everything; when the others have gone, every page that was free before is free again. The run ends early exactly at a panic, which only a request past MAXVA brings about. |
| `AddressSpaces.EnoughPages` | XV6 Multilevel feedback queue/xv6-riscv/kernel/kalloc.c:65-82 | From the free-list lengths along a run: with the sum of what the operations may need free at the beginning, none is refused. |
| `AddressSpaces.Isolation` | XV6 Multilevel feedback queue/xv6-riscv/kernel/proc.c:402-584 | Through any such run a process that performs no operation itself keeps its size and every byte. |
| `HeapSpec.InsertSpaced` | XV6 Multilevel feedback queue/xv6-riscv/user/umalloc.c:33-44 | Inserting a freed block with coalescing keeps the free list ordered, disjoint and without adjacent blocks. |
| `HeapSpec.InsertCovers` | XV6 Multilevel feedback queue/xv6-riscv/user/umalloc.c:33-44 | The free list then covers exactly what it covered and the freed block. |
| `HeapSpec.CarveCovers` | XV6 Multilevel feedback queue/xv6-riscv/user/umalloc.c:73-86 | Cutting an allocation from a block splits what it covered into the allocation and the rest. |
| `HeapSpec.UnitsForFits` | XV6 Multilevel feedback queue/xv6-riscv/user/umalloc.c:69-69 | The units of a request hold its bytes behind the header with less than one unit to spare. |
| `HeapSpec.SbrkArgumentExact` | XV6 Multilevel feedback queue/xv6-riscv/user/umalloc.c:46-61 | sbrk's int argument is the size that morecore records exactly below 2^27 units, and never more. |
| `Heap.Allocator.Free` | XV6 Multilevel feedback queue/xv6-riscv/user/umalloc.c:24-44 | free removes exactly the given allocation and adds exactly its bytes to the free list, keeping the ring, order, disjointness and conservation; the next search starts at the block below. |
| `Heap.Allocator.Morecore` | XV6 Multilevel feedback queue/xv6-riscv/user/umalloc.c:46-61 | morecore adds the new region to the free list, as its last block or the end of its last block. |
| `Heap.Allocator.Search` | XV6 Multilevel feedback queue/xv6-riscv/user/umalloc.c:73-89 | The walk around the ring from freep terminates, at the first large enough block after freep or when there is none. |
| `Heap.Allocator.Malloc` | XV6 Multilevel feedback queue/xv6-riscv/user/umalloc.c:63-90 | malloc returns a new live block disjoint from all others: the end of the first large enough block after the place of the last search, or else of the region that sbrk gives; Null exactly when no free block is large enough and sbrk refuses; an overrun exactly when sbrk is asked for 2^27 units or more. |
| `QueueTable.AppendRep` | XV6 Multilevel feedback queue/xv6-riscv/kernel/proc.c:116-146 | enqueue's four writes append the process to the sequence of its queue and leave the other queues alone. |
| `QueueTable.RemoveRep` | XV6 Multilevel feedback queue/xv6-riscv/kernel/proc.c:149-159 | removeFromQueue's writes take the process out of its queue and leave all else in order. |
| `QueueTable.SetupRep` | XV6 Multilevel feedback queue/xv6-riscv/kernel/proc.c:60-83 | setupQueue leaves three empty queues. |
| `QueueTable.QueuedWhere` | XV6 Multilevel feedback queue/xv6-riscv/kernel/proc.c:51-58 | A table entry names the one queue that the process is in. |
| `ProcSpec.ChosenWithinLimit` | XV6 Multilevel feedback queue/xv6-riscv/kernel/proc.c:85-115 | After any enqueue the quanta is at most 15, 10 or 1 for levels 0, 1 and 2. |
| `ProcSpec.YieldCycle` | XV6 Multilevel feedback queue/xv6-riscv/kernel/proc.c:85-147 | With a fixed nice value and no boost, consecutive yields have least period 17, 12 or 2, with exactly one visit to the level below in a round, if there is one. |
| `ProcSpec.RunInv` | XV6 Multilevel feedback queue/xv6-riscv/kernel/proc.c:478-878 | Every run of yields, sleeps, waits, wakeups, kills, forks, exits, scheduler turns and changes of nice values, at any time and without sys_nice's requeue, keeps the queue and process-tree invariant. |
| `ProcSpec.RunnableOnce` | XV6 Multilevel feedback queue/xv6-riscv/kernel/proc.c:57-210 | In every reachable state a process is at exactly one place of exactly one queue if it is RUNNABLE and at none otherwise, and knows its level and quanta. |
| `ProcSpec.RunFifo` | XV6 Multilevel feedback queue/xv6-riscv/kernel/proc.c:85-210 | Over any stretch of a run without a boost, what was in a queue followed by the processes that became RUNNABLE at its level is what left it for the processor followed by what is in it: every queue is a FIFO. |
| `ProcSpec.NoOvertaking` | XV6 Multilevel feedback queue/xv6-riscv/kernel/proc.c:116-210 | Of two processes in a queue the one behind is taken only after the one in front. |
| `ProcSpec.AllLevelsReached` | XV6 Multilevel feedback queue/xv6-riscv/kernel/proc.c:85-115 | Of the machine, which omits sys_nice's requeue and so allows more than the code: there is a run with processes in all three queues, so that the results over runs speak of all of them. In the code queue 0 is entered only after a requeue, as TopNeedsRequeue says. |
| `ProcSpec.TopNeedsRequeue` | XV6 Multilevel feedback queue/xv6-riscv/kernel/proc.c:238-270 | In every run in which no change of a nice value meets sys_nice's condition for a requeue, queue 0 is empty and every nice value is at most 10. |
| `ProcSpec.LowerLevelsReached` | XV6 Multilevel feedback queue/xv6-riscv/kernel/proc.c:238-270 | There is such a run with processes in queues 1 and 2 at once. |
| `ProcSpec.RoundPicks` | XV6 Multilevel feedback queue/xv6-riscv/kernel/proc.c:695-724 | Of the RUNNABLE processes a scheduler turn runs exactly the one that is first in its queue while every better queue is empty, and there is one if any process is RUNNABLE. |
| `ProcSpec.WokenEffect` | XV6 Multilevel feedback queue/xv6-riscv/kernel/proc.c:824-847 | wakeup readies exactly the processes other than the caller that sleep on the channel. |
| `ProcSpec.StepTree` | XV6 Multilevel feedback queue/xv6-riscv/kernel/proc.c:528-693 | Every step keeps the tree: a process has a live, older parent, a free slot has none. |
| `ProcSpec.LifeCycle` | XV6 Multilevel feedback queue/xv6-riscv/kernel/proc.c:528-693 | Every pid is born at most once, is in the table from birth to reaping, and is reaped exactly once after it exits. |
| `ProcSpec.KillZeroMarksNextChild` | XV6 Multilevel feedback queue/xv6-riscv/kernel/proc.c:853-878 | kill(0) marks a free slot, and the next child created there is killed from birth, in every reachable state. |
| `ProcSpec.BornKilled` | XV6 Multilevel feedback queue/xv6-riscv/kernel/proc.c:353-419 | In every run the marked unused slots are exactly those that a kill(0) has marked since they were last taken, and a child is killed at birth exactly if its slot is one of them. |
| `ProcSpec.WaitersHaveLiveChildren` | XV6 Multilevel feedback queue/xv6-riscv/kernel/proc.c:601-693 | No wakeup between exit and wait is lost: a process asleep in wait has a child and none that is dead. |
| `ProcSpec.WaitersWoken` | XV6 Multilevel feedback queue/xv6-riscv/kernel/proc.c:601-693 | In every run a process that sleeps, and whose last sleep was in wait, has a child and none that is dead. |
| `ProcSpec.ExitedSlots` | XV6 Multilevel feedback queue/xv6-riscv/kernel/proc.c:586-644 | exit leaves a zombie, gives its children to init, leaves neither the parent nor, if there were children, init asleep in wait, and makes no other slot dead or asleep. |
| `ProcEffects.YieldEffect` | XV6 Multilevel feedback queue/xv6-riscv/kernel/proc.c:753-770 | yield counts one quantum and one tick and sends the process to the end of the queue that the rules on nice value, level and quanta give, as its cycle says; nobody else changes. |
| `ProcEffects.KilledEffect` | XV6 Multilevel feedback queue/xv6-riscv/kernel/proc.c:849-878 | kill changes the first slot with the pid only: it is killed, and queued if it slept. |
| `ProcEffects.ForkEffect` | XV6 Multilevel feedback queue/xv6-riscv/kernel/proc.c:528-584 | fork makes the first unused slot a RUNNABLE child with the next pid at the end of its queue; if the copy fails the slot is blank again. |
| `ProcEffects.ForkFull` | XV6 Multilevel feedback queue/xv6-riscv/kernel/proc.c:353-400 | With no unused slot fork changes nothing. |
| `ProcEffects.UnusedBlank` | XV6 Multilevel feedback queue/xv6-riscv/kernel/proc.c:402-419 | In every run an unused slot has no pid, parent or nice value left of its last process. |
| `ProcEffects.SleepWake` | XV6 Multilevel feedback queue/xv6-riscv/kernel/proc.c:793-847 | A process that sleeps on a channel is in no queue, is readied by a wakeup of that channel, and by no other. |
| `ProcEffects.BoostEffect` | XV6 Multilevel feedback queue/xv6-riscv/kernel/proc.c:703-720 | A boost that is due queues every RUNNABLE process anew in slot order, and no other, and restarts the clock. |
| `ProcTable.Kernel.SetupQueue` | XV6 Multilevel feedback queue/xv6-riscv/kernel/proc.c:60-83 | setupQueue makes the table stand for three empty queues. |
| `ProcTable.Kernel.Enqueue` | XV6 Multilevel feedback queue/xv6-riscv/kernel/proc.c:85-147 | enqueue chooses level and quanta as specified and appends the process. |
| `ProcTable.Kernel.RemoveFromQueue` | XV6 Multilevel feedback queue/xv6-riscv/kernel/proc.c:149-159 | removeFromQueue removes exactly that process. |
| `ProcTable.Kernel.Dequeue` | XV6 Multilevel feedback queue/xv6-riscv/kernel/proc.c:161-210 | dequeue runs the specified process and removes it from its queue. |
| `ProcTable.Kernel.Boost` | XV6 Multilevel feedback queue/xv6-riscv/kernel/proc.c:703-720 | The boost empties the queues and enqueues every RUNNABLE process in slot order. |
| `ProcTable.Kernel.SchedulerTurn` | XV6 Multilevel feedback queue/xv6-riscv/kernel/proc.c:703-724 | One turn of the scheduler is the machine's Round step. |
| `ProcTable.Kernel.Yield` | XV6 Multilevel feedback queue/xv6-riscv/kernel/proc.c:753-770 | yield is the machine's Yield step. |
| `ProcTable.Kernel.Sleep` | XV6 Multilevel feedback queue/xv6-riscv/kernel/proc.c:793-822 | sleep is the machine's Sleep step. |
| `ProcTable.Kernel.SysNice` | XV6 Multilevel feedback queue/xv6-riscv/kernel/proc.c:238-273 | The nice value changes by the increment, within -20 and 19. There is no requeue exactly when the new value is above 10 in queue 0, below -10 in queue 1, or -10 in queue 2; without one this is the machine's Nice step, and after one the table stands for no queues of exactly the RUNNABLE processes. |
| `Requeue.EnqueuedTwice` | XV6 Multilevel feedback queue/xv6-riscv/kernel/proc.c:116-146 | Enqueuing a process twice at one level links its entry to itself, in front of the tail. |
| `Requeue.TwiceSticks` | XV6 Multilevel feedback queue/xv6-riscv/kernel/proc.c:116-159 | That makes the process the head for good exactly when the level was empty, or headed by it, and no other entry leads back to the head. |
| `Requeue.StuckForever` | XV6 Multilevel feedback queue/xv6-riscv/kernel/proc.c:116-159 | No sequence of enqueues and removals, of any processes, then ever changes the head of that level. |
| `Requeue.StuckPicked` | XV6 Multilevel feedback queue/xv6-riscv/kernel/proc.c:161-192 | dequeue then takes that process or one of a better level, and no other. |
| `Requeue.LostForever` | XV6 Multilevel feedback queue/xv6-riscv/kernel/proc.c:116-192 | A process to which no link leads is taken by no dequeue, whatever is enqueued and removed, until it is enqueued itself. |
| `Requeue.NiceThenYield` | XV6 Multilevel feedback queue/xv6-riscv/kernel/proc.c:238-273 | After boot the first process calls nice(0) and yields: it is then the head of its level for good. |
| `Requeue.ForkThenNice` | XV6 Multilevel feedback queue/xv6-riscv/kernel/proc.c:238-273 | After boot the first process forks and calls nice(0): the child is RUNNABLE and no link leads to it. |
| `ProcTable.Kernel.Wakeup` | XV6 Multilevel feedback queue/xv6-riscv/kernel/proc.c:824-847 | wakeup is the machine's Wakeup step. |
| `ProcTable.Kernel.Kill` | XV6 Multilevel feedback queue/xv6-riscv/kernel/proc.c:849-878 | kill finds a slot exactly when one has the pid; the first such slot is marked as killed and, if it slept, made RUNNABLE and put at the end of the queue of its level; no other slot changes. It is the machine's Kill step. |
| `ProcTable.Kernel.Fork` | XV6 Multilevel feedback queue/xv6-riscv/kernel/proc.c:528-584 | fork is the machine's Fork step and returns the new pid, or -1 when no slot or memory is free. |
| `ProcTable.Kernel.Reparent` | XV6 Multilevel feedback queue/xv6-riscv/kernel/proc.c:586-599 | reparent gives the children to init, waking it for each. |
| `ProcTable.Kernel.Exit` | XV6 Multilevel feedback queue/xv6-riscv/kernel/proc.c:601-644 | exit is the machine's Exit step, and panics exactly for init. |
| `ProcTable.Kernel.Wait` | XV6 Multilevel feedback queue/xv6-riscv/kernel/proc.c:646-693 | A turn of wait reaps the first dead child exactly when there is one and its status can be copied out, fails exactly when there is none dead and no child, or the caller is killed, and else sleeps as one step. |
| `SleepLock.MutualExclusion` | XV6 Multilevel feedback queue/xv6-riscv/kernel/sleeplock.c:21-41 | Over all interleavings at most one process is between acquiresleep and releasesleep, and the lock says so. |
| `SleepLock.NoLostWakeup` | XV6 Multilevel feedback queue/xv6-riscv/kernel/proc.c:793-847 | While the lock is free nobody sleeps, or is committed to sleeping, unless a wakeup scan has yet to reach that process. |
| `SleepLock.DeadlockFree` | XV6 Multilevel feedback queue/xv6-riscv/kernel/sleeplock.c:21-41 | As long as some process is inside the protocol some such process can take a step. |
| `RingBuffer.PutAppends` | Metadata journaling service/journal.c:28-42 | With room left, enqueue appends. |
| `RingBuffer.GetTakes` | Metadata journaling service/journal.c:44-74 | From a buffer that is not empty, dequeue takes the oldest request. |
| `RingBuffer.Unchecked` | Metadata journaling service/journal.c:28-74 | Neither call checks: a full buffer loses its oldest request, an empty one gets a negative size. |
| `RingBuffer.CircBuffer.Enqueue` | Metadata journaling service/journal.c:28-42 | enqueue in place is the specified update. |
| `RingBuffer.CircBuffer.Dequeue` | Metadata journaling service/journal.c:44-74 | dequeue in place is the specified update, and returns the oldest request. |
| `JournalSpec.NoOverflow` | Metadata journaling service/journal.c:76-213 | In no interleaving of any number of writers and the three threads does a ring overflow or underflow. |
| `JournalSpec.SlotsConserved` | Metadata journaling service/journal.c:177-195 | For each ring, free slots, requests and slots in transit are always eight, and announced, silent and claimed requests are its contents. |
| `JournalSpec.CriticalAlone` | Metadata journaling service/journal.c:76-213 | No two threads or writers are in the critical section together. |
| `JournalSpec.IssueOrder` | Metadata journaling service/journal.c:76-173 | What is issued for each request is a prefix of data, txb, bitmap, inode, txe, bitmap, inode, complete: never out of order, never twice. |
| `JournalSpec.CompletedInOrder` | Metadata journaling service/journal.c:153-213 | The completed requests are the first ones in the order in which their writers put them into the first ring, each with its whole script issued. |
| `JournalSpec.Progress` | Metadata journaling service/journal.c:76-213 | If no step is enabled, every writer has returned and every request is complete; so while one is pending some step is enabled. |
| `VirtioSpec.RunInv` | XV6 Multilevel feedback queue/xv6-riscv/kernel/virtio_disk.c:155-327 | Every run of driver and device keeps the ring, chain and phase invariant. |
| `VirtioSpec.DescriptorsPartitioned` | XV6 Multilevel feedback queue/xv6-riscv/kernel/virtio_disk.c:155-213 | A descriptor is free or in exactly one chain. |
| `VirtioSpec.TwoInFlight` | XV6 Multilevel feedback queue/xv6-riscv/kernel/virtio_disk.c:215-292 | At most two requests are under way, neither ring overwrites a live entry, and equal 16-bit indices mean an empty queue however often they wrap. |
| `VirtioSpec.DeviceSeesRequest` | XV6 Multilevel feedback queue/xv6-riscv/kernel/virtio_disk.c:232-268 | Following the chain from a head, the device reads exactly the operation, buffer, direction and status cell of the last call of virtio_disk_rw that published that head. |
| `VirtioSpec.SubmitAsks` | XV6 Multilevel feedback queue/xv6-riscv/kernel/virtio_disk.c:215-277 | A call of virtio_disk_rw publishes one entry, with a head not in use, whose chain reads as the operation and the buffer of the call. |
| `VirtioSpec.LookClearsOne` | XV6 Multilevel feedback queue/xv6-riscv/kernel/virtio_disk.c:311-324 | A turn of the interrupt loop panics exactly when the device has reported a failure for the request that it finds; else it clears exactly the buffer that the call which published that request asked for, which was served and not cleared before. |
| `VirtioSpec.PanicCause` | XV6 Multilevel feedback queue/xv6-riscv/kernel/virtio_disk.c:311-324 | In every run the driver has panicked only if the device reported a failure that is still in the used ring, and every request whose buffer was cleared has succeeded. |
| `VirtioSpec.StatusReported` | XV6 Multilevel feedback queue/xv6-riscv/kernel/virtio_disk.c:260-261 | The status cell of a served request holds what the device last reported for it. |
| `VirtioDisk.Disk.AllocDesc` | XV6 Multilevel feedback queue/xv6-riscv/kernel/virtio_disk.c:155-166 | alloc_desc takes the first free descriptor. |
| `VirtioDisk.Disk.FreeDesc` | XV6 Multilevel feedback queue/xv6-riscv/kernel/virtio_disk.c:168-182 | free_desc blanks and frees a taken descriptor and panics otherwise. |
| `VirtioDisk.Disk.Alloc3Desc` | XV6 Multilevel feedback queue/xv6-riscv/kernel/virtio_disk.c:199-213 | alloc3_desc takes three descriptors or, giving back what it took, changes nothing. |
| `VirtioDisk.Disk.Submit` | XV6 Multilevel feedback queue/xv6-riscv/kernel/virtio_disk.c:215-277 | virtio_disk_rw up to the notification is the machine's Submit step, after which the chain of the published entry reads as the operation and buffer of the call; or it changes nothing when descriptors are short. |
| `VirtioDisk.Disk.Intr` | XV6 Multilevel feedback queue/xv6-riscv/kernel/virtio_disk.c:294-327 | virtio_disk_intr terminates while the device goes on reporting; it ends with an empty used ring and all served requests cleared, which then had all succeeded, or panics; it does not panic if no failure is reported. |
| `VirtioDisk.Disk.LookClears` | XV6 Multilevel feedback queue/xv6-riscv/kernel/virtio_disk.c:311-324 | A turn takes the oldest served request and panics exactly when the device reported a failure for it. |
| `VirtioDisk.Disk.FreeChain` | XV6 Multilevel feedback queue/xv6-riscv/kernel/virtio_disk.c:184-197 | free_chain frees exactly the three descriptors of the request and never panics. |
| `VirtioDisk.Disk.Finish` | XV6 Multilevel feedback queue/xv6-riscv/kernel/virtio_disk.c:279-292 | The end of virtio_disk_rw is the machine's Finish step. |
| `Regex.MatchHere` | XV6 Multilevel feedback queue/xv6-riscv/user/grep.c:83-95 | matchhere is true exactly when a prefix of the text, all of it for a final '$', is in the language of the pattern. |
| `Regex.MatchStar` | XV6 Multilevel feedback queue/xv6-riscv/user/grep.c:97-105 | matchstar is true exactly when some number of the starred character and then the rest match. |
| `Regex.Match` | XV6 Multilevel feedback queue/xv6-riscv/user/grep.c:71-81 | match is true exactly when some substring, at the beginning after '^', is in the language of the pattern. |
| `Regex.HereStar` | XV6 Multilevel feedback queue/xv6-riscv/user/grep.c:87-88 | A starred item matches as the concatenation of the languages says. |
| `Grep.PrintLines` | XV6 Multilevel feedback queue/xv6-riscv/user/grep.c:20-27 | The inner loop prints the matching lines of the buffer and keeps what follows the last newline. |
| `Grep.Run` | XV6 Multilevel feedback queue/xv6-riscv/user/grep.c:10-34 | However the reads split the input, grep prints exactly the matching lines before the first line that does not fit its buffer. |
| `ShellGrammar.RoundTrip` | XV6 Multilevel feedback queue/xv6-riscv/user/sh.c:328-447 | Every well-formed command, written with parentheses only where the rules need them and with any white space, parses back to that command. |
| `ShellGrammar.AcceptsExactly` | XV6 Multilevel feedback queue/xv6-riscv/user/sh.c:328-447 | The parser accepts exactly the lines whose tokens the grammar derives: line, pipe, exec and redirection as rules, apart from how the parser walks. |
| `ShellGrammar.MeansDerivation` | XV6 Multilevel feedback queue/xv6-riscv/user/sh.c:328-447 | An accepted line becomes the command that its derivation stands for: pipes nest to the right and bind tighter than '&', that tighter than ';', and redirections go around the whole command, wherever they stand in it. |
| `ShellGrammar.LexedSpelled` | XV6 Multilevel feedback queue/xv6-riscv/user/sh.c:266-309 | Tokens written one after the other, with any white space between them, or none where none is needed, are read as those tokens. |
| `ShellGrammar.Pipeline` | XV6 Multilevel feedback queue/xv6-riscv/user/sh.c:362-373 | Simple commands joined by pipes, any number of them, with any white space, parse to a pipeline nested to the right. |
| `ShellSpec.BlanksIgnored` | XV6 Multilevel feedback queue/xv6-riscv/user/sh.c:266-321 | White space before a token changes neither the token nor what peek says. |
| `ShellGrammar.PrintoutMeansSame` | XV6 Multilevel feedback queue/xv6-riscv/user/sh.c:328-447 | Every line that parses means the same as what it parses to, written out again in that way. |
| `ShellSpec.ParsedPlaced` | XV6 Multilevel feedback queue/xv6-riscv/user/sh.c:266-447 | Whatever the line, the words of a parsed command are maximal words of the line, to the left and to the right, at their places, and no command has more than nine arguments. |
| `Shell.NextToken` | XV6 Multilevel feedback queue/xv6-riscv/user/sh.c:266-309 | gettoken returns the token and the position that the parser of ShellSpec gives, and bounds words exactly. |
| `Shell.PeekAt` | XV6 Multilevel feedback queue/xv6-riscv/user/sh.c:311-321 | peek skips white space and tells whether one of the symbols follows. |
| `Shell.Redirs` | XV6 Multilevel feedback queue/xv6-riscv/user/sh.c:375-398 | parseredirs agrees with the parser of ShellSpec, and so with the grammar. |
| `Shell.Args` | XV6 Multilevel feedback queue/xv6-riscv/user/sh.c:416-447 | parseexec's loop agrees with the parser of ShellSpec, and so with the grammar. |
| `Shell.ExecAt` | XV6 Multilevel feedback queue/xv6-riscv/user/sh.c:416-447 | parseexec agrees with the parser of ShellSpec, and so with the grammar. |
| `Shell.BlockAt` | XV6 Multilevel feedback queue/xv6-riscv/user/sh.c:400-414 | parseblock agrees with the parser of ShellSpec, and so with the grammar. |
| `Shell.PipeAt` | XV6 Multilevel feedback queue/xv6-riscv/user/sh.c:362-373 | parsepipe agrees with the parser of ShellSpec, which ShellGrammar.AcceptsExactly and MeansDerivation tie to the grammar: any number of pipes, nested to the right. |
| `Shell.LineAt` | XV6 Multilevel feedback queue/xv6-riscv/user/sh.c:345-360 | parseline agrees with the parser of ShellSpec, which ShellGrammar.AcceptsExactly and MeansDerivation tie to the grammar, and terminates on every line. |
| `Shell.Nulterminate` | XV6 Multilevel feedback queue/xv6-riscv/user/sh.c:449-494 | nulterminate puts a NUL after every word of the command and overwrites no character of any word. |
| `Shell.ParseCommand` | XV6 Multilevel feedback queue/xv6-riscv/user/sh.c:328-343 | parsecmd panics exactly when the grammar derives no command from the line; else it returns the command that the derivation stands for, and every argument and file name reads, in the buffer as it then is, as the word it was parsed from. |

## Left out

- Inode cache, directories and path names (`iget`, `iput`, `dirlookup`, `namex`): inodes are records that the caller holds.
- On-disk layout of inodes: in `FileSystem` an inode is a record beside the disk, and `iupdate` counts as a logged block; `CrashConsistency` lays size and addresses out on the disk. Type, device numbers and link count are not modelled.
- FileSystem.Volume.Writei: the bound on logged blocks is for a chunk that starts at a block boundary or in an allocated block, as every chunk on a dense file does.
- CrashConsistency.CrashConsistent: operations may be open together, but the log_writes of one transaction are not interleaved with those of another.
- CrashConsistency.WriteFile: takes a source that can be read to its end; after a copy fault a changed buffer need not be logged.
- Sv39.EncodedFields: page-table words are kept as page number and flags; the encoding is related to them here, and 64-bit overflow of page numbers is not modelled.
- AddressSpaces.Interleave: each operation runs to its end before another begins; trampoline and trapframe pages are not part of a space, and page 0 is not managed.
- Vm.Kernel.Uvmdealloc: asks that the number of pages fits an `int`, through which the code passes it.
- Vm.Kernel.Kfree: the range and alignment panics are left out, since only managed pages are ever passed.
- `copyin`, `copyinstr`, `uvmclear` and `uvmfirst`: they would add easy members.
- Requeue.NiceThenYield: after a requeue the table is followed, but not which processes run on several processors at once.
- ProcTable.Kernel.Dequeue: each queue-table operation is one step, because the code takes no lock around it; races of several processors on it are not modelled.
- ProcTable.Kernel.Sleep: ends at the call of `sched`; what happens after waking is in the model of sleep locks.
- Process identifiers, clocks and file offsets do not wrap around.
- JournalSpec.IssueOrder: speaks of issuing; the completion of a commit block is never awaited by the code. A ring operation is one step, justified by JournalSpec.CriticalAlone.
- BufferCache.Bcache.Brelse: asks that the last reference be given up only when the contents are on disk, which is the callers' discipline; one process at a time runs an operation.
- BufferCache.Bcache.LockAndFill: runs to its end, so that a disk read in progress while others look for buffers is a state of the machine in `CacheSpec` only.
- ProcTable.Kernel.Fork: the USED state between `allocproc` and RUNNABLE is not a separate step.
- VirtioDisk.Disk.Intr: at most one report arrives during a turn of the loop.
- VirtioDisk.Disk.Submit: asks that no request for the same buffer is under way, which the buffer's sleep lock ensures; the data transfer itself is the device's and is not modelled beyond the command that it reads.
- Heap.Allocator.Free: only for pointers that malloc returned and that are still live.
- Mkfs.Builder.Build: at most 198 files; the code does not check the number of inodes.
- Shell.ParseCommand: running the command is not modelled; memory for the tree never runs out.
- Grep.Run: input without NUL bytes, and one input at a time.
- Spin locks, context switches, traps, the console, pipes, exec, and the second scheduler tree, which repeats most of this code.
