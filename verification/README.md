# Proofs about xv6

This project models the parts of the xv6 teaching kernel for RISC-V, and of its user programs, whose correctness
depends on more than one function, and proves what they are for. `dafny verify dfyconfig.toml` checks all of it.

- **The log** (`LogDisk`, `LogMachine`, `LogCode`; kernel/log.c). `LogDisk` says what recovery makes of an arbitrary
  disk. `LogMachine` is the protocol as a state machine: begin_op, log_write and end_op of any number of processes, the
  steps of commit and recovery, buffer replacement and crashes, interleaved in any order; one write of a block is one
  step. `LogCode` is the code, with a ghost record that shows every method to be a sequence of steps of that machine.
- **Files** (`FsBlocks`, `FsSpec`, `FsSpace`, `FsCode`; kernel/fs.c and filewrite in kernel/file.c). The bitmap with its
  bits, the indirect blocks with their bytes, the inode table and an ownership map from blocks to the slots that hold
  them; readi and writei against flat byte sequences; how many free blocks a write takes and where it ends if there are
  too few; which blocks a transaction logs, and how many.
- **Processes** (`ProcMachine`, `ProcFamily`, `ProcTheorems`, `ProcRuns`; kernel/proc.c, kernel/spinlock.c). One state
  machine for schedulers on any number of CPUs, the hand-over of p->lock across swtch, sleep, wakeup, fork, exit,
  reparenting and wait. A critical section on another process's lock that does not span a swtch is one step; a fork that
  fails after allocproc begins and ends within such a section and is no step at all. `ProcTheorems` is about every
  reachable state; `ProcRuns` says what each operation does when it runs to its end from one, and that there is no
  deadlock.
- **Memory** (`VmSpec`, `VmCode`; kernel/vm.c, kernel/kalloc.c and the memory side of fork in kernel/proc.c). Physical
  memory as words, page tables as pages in it, the free list through the free pages; a partial map per page table; one
  role for every page; how many pages each operation takes.
- **The buffer cache** (`BufferCache`; kernel/bio.c). The linked ring, reference counts, sleep-locks, pins and changes
  that are not on the disk; each method is one critical section, so calls of several processes interleave as in the
  kernel.
- **The disk driver** (`Virtio`; kernel/virtio_disk.c). Descriptors, both rings with 16-bit indices, the interrupt
  handler, and a device that completes requests in any order (sections 2.6 and 5.2.6 of VirtIO 1.1).
- **Pipes** (`Pipe`; kernel/pipe.c). The ring buffer with its 32-bit counters, readers, writers and sleepers.
- **User programs**: the allocator (`Malloc`; user/umalloc.c), the shell's parser and a grammar that it is measured
  against (`ShellSpec`, `ShellGrammar`, `ShellCode`; user/sh.c), and grep (`Grep`; user/grep.c).

What user memory can be copied, when a kill is noticed, how much read delivers, what sbrk returns and which block the
device completes next are parameters or arbitrary choices. A panic is a result (`ok == false`, `Panic`) wherever a
caller can cause it, and is proved unreachable where the kernel relies on that.

Some statements that look plausible are not what the code does; they are proved in the form that holds:

- log_write tests for a full log before it looks for an entry to absorb into (kernel/log.c:221-229), so a write that
  needs no new entry can panic. `LogCode.Log.LogWrite` gives the exact condition, `LogMachine.AbsorbedWriteCanPanic` a
  run, and `LogMachine.NoPanic` the discipline that excludes it.
- brelse does not check that a change was written or logged (kernel/bio.c:116-137). `BufferCache.Cache.ReleaseSleep` and
  `BufferCache.Cache.Bunpin` say exactly which calls leave a change unprotected, `BufferCache.CarelessRelease` is one,
  and `BufferCache.Agreement` says what holds as long as there are none. writei can be such a caller when a copy fails,
  see below.
- pipewrite returns on a kill without a wakeup (kernel/pipe.c:84-87). `Pipe.PipeBuffer.Write` says for exactly which
  requests that leaves a reader asleep on a pipe that is not empty, and `Pipe.KilledWriter` is such a run.
- piperead consumes a byte before it knows that it can be copied out (kernel/pipe.c:123-125). `Pipe.PipeBuffer.Read`
  says exactly when a byte is lost, and `Pipe.LostByte` is a run that loses one.
- A copy that fails in writei may have changed part of the buffer (kernel/fs.c:545-547). `FsCode.FileSystem.Writei` says
  exactly which bytes, `FsCode.UncountedExactly` for which requests there are any, and `FsCode.UncountedByte` is a run.
- grep stops at a line that does not fit its buffer or that holds a NUL (user/grep.c:18-22). `Grep.Grep` is about every
  input, `Grep.AllLines` says exactly when its output is all matching lines, and `Grep.DroppedLine` is an input for
  which it is not.

## Model

| member | source | states |
|---|---|---|
| `LogDisk.InstallAt` | kernel/log.c:66-84 | After any number k of trips of install_trans every home block holds its last copy among the first k log blocks, and its own old contents if none of them names it |
| `LogDisk.RecoveredAt` | kernel/log.c:117-124 | The same for a complete recovery, on any disk with a sane header, duplicates in the list included |
| `LogDisk.InstallIdempotent` | kernel/log.c:66-84 | Installing again over any partly installed disk gives the same home blocks |
| `LogDisk.RecoveryRestarts` | kernel/log.c:117-124 | A recovery that was cut off after any number of blocks and is started over ends in the same home blocks |
| `LogDisk.RecoveredTwice` | kernel/log.c:117-124 | Recovering a recovered disk changes no home block |
| `LogDisk.RecoveryReadsTheList` | kernel/log.c:87-115 | Recovery depends on the header list and the blocks only, not on what else the header block holds |
| `LogDisk.EncodeHead` | kernel/log.c:103-115 | The header that write_head formats decodes to the in-memory list |
| `LogMachine.KeepInv` | kernel/log.c:126-236 | Every step of every process, of the committer, of recovery, of cache replacement and every crash keeps the invariant that ties disk, log, cache, pins and history together |
| `LogMachine.Reachable` | kernel/log.c:53-236 | The invariant holds after every run from a boot on a disk with a sane header |
| `LogMachine.GroupCommit` | kernel/log.c:126-236 | In every interleaving with crashes anywhere, recovering the disk as it stands gives the result of a prefix of the history that consists of whole operations |
| `LogMachine.DurableForever` | kernel/log.c:194-204 | What a header write has covered stays a prefix of the durable history through all later steps and crashes; a header write covers every call made before it |
| `LogMachine.CommitSaves` | kernel/log.c:178-204 | During a commit the recoverable state switches from the old to the new file system exactly at the header write |
| `LogMachine.RecoverySaves` | kernel/log.c:117-124 | Recovery steps and further crashes never change the recoverable state |
| `LogMachine.CrashAtomicity` | kernel/log.c:65-204 | A crash after any step of a commit and after any steps of any number of interrupted recoveries leaves, once a recovery completes, all home blocks as before or all as after the transaction, decided only by whether the header write was among the steps |
| `LogMachine.RecoveredIsSaved` | kernel/log.c:117-124 | In every reachable state a recovery of the raw disk would yield exactly the durable history |
| `LogMachine.CrashKeepsTheDisk` | kernel/log.c:53-124 | A crash keeps the disk and loses everything else, so that only recovery can go on |
| `LogMachine.ReplacedIsReread` | kernel/bio.c:74-88 | A buffer that is replaced reads as the disk afterwards, and every block reads as before |
| `LogMachine.Reservation` | kernel/log.c:126-143 | If no operation exceeds MAXOPBLOCKS new entries, the log list plus all unused reservations never exceeds LOGBLOCKS |
| `LogMachine.NoPanic` | kernel/log.c:147-236 | The panics of log_write and end_op are unreachable for an operation that has appended fewer than MAXOPBLOCKS entries |
| `LogMachine.SleepersHaveAWaker` | kernel/log.c:126-176 | A process asleep in begin_op coexists with an open operation or a commit; the next end_op that does not commit, and the end of a commit, wake it |
| `LogMachine.AbsorbedWriteCanPanic` | kernel/log.c:215-229 | From any boot, a run within all allowances in which the log is full, so that a further log_write panics although its block is already logged |
| `LogCode.Log.constructor` | kernel/log.c:53-63 | initlog reaches the initial state of the protocol; the history starts from what recovery makes of the disk |
| `LogCode.Log.CopyToLogBlock` | kernel/log.c:183-191 | One trip of write_log is one step of the protocol |
| `LogCode.Log.WriteLogBlocks` | kernel/log.c:179-192 | write_log performs one copy step per list entry and changes neither the logical nor the recoverable state |
| `LogCode.Log.FormatHead` | kernel/log.c:103-112 | The loop of write_head produces the encoded header |
| `LogCode.Log.WriteHeader` | kernel/log.c:103-115 | write_head is one write of the header block |
| `LogCode.Log.InstallBlock` | kernel/log.c:70-83 | One trip of install_trans is one step of the protocol |
| `LogCode.Log.InstallTrans` | kernel/log.c:66-84 | install_trans performs one step per entry, in commit and in recovery |
| `LogCode.Log.CommitHeader` | kernel/log.c:199 | After the first write_head of commit a crash recovers to everything written so far |
| `LogCode.Log.EraseHeader` | kernel/log.c:201-202 | Erasing the header changes no recoverable contents |
| `LogCode.Log.Commit` | kernel/log.c:194-204 | commit is exactly the script copy*, header, install*, erase; afterwards the home blocks hold everything written and the log is empty |
| `LogCode.Log.ReadHeader` | kernel/log.c:87-98 | read_head loads the list that the disk holds |
| `LogCode.Log.RecoverFromLog` | kernel/log.c:117-124 | The home blocks become what the log of the given disk demands and the log becomes empty |
| `LogCode.Log.BeginOp` | kernel/log.c:127-143 | A process enters exactly if no commit is under way and the reservation fits; otherwise it is asleep, and no other process is concerned |
| `LogCode.Log.LogWrite` | kernel/log.c:215-236 | The panic condition exactly; otherwise the block is listed and pinned, absorbed if it is in the list and appended if not |
| `LogCode.Log.EndOp` | kernel/log.c:147-176 | The last operation commits for all, and the disk then holds the logical file system; any other only gives up its reservation; either way nobody is left asleep |
| `FsBlocks.BitChanges` | kernel/fs.c:75-103 | Setting or clearing a bitmap bit changes that bit and no other |
| `FsBlocks.PutWordAt` | kernel/fs.c:431-436 | Storing an indirect entry changes that entry and no other |
| `FsSpec.HeldExactlyOnce` | kernel/fs.c:64-106 | A bit is set if and only if the block is metadata or some inode or indirect slot holds it; no block is in two slots |
| `FsSpec.OwnedPut` | kernel/fs.c:405-444 | Recording a fresh block in an empty slot keeps the bijection between blocks in use and slots in use |
| `FsSpec.BlockStored` | kernel/fs.c:537-550 | Storing into one block of a file keeps every pointer and all data of all other files |
| `FsSpec.ChunkBytes` | kernel/fs.c:537-550 | A chunk stored in a block changes exactly the bytes it covers |
| `FsSpec.DenseAfterWrite` | kernel/fs.c:528-555 | A write that starts within the file leaves no hole below the new size |
| `FsSpec.FlatFromBlocks` | kernel/fs.c:528-562 | What writei does to the blocks is the flat write on the byte sequence |
| `FsSpec.FlatExact` | kernel/fs.c:528-562 | A flat write that counts all it stores is prefix, data, suffix |
| `FsSpec.UncountedShows` | kernel/fs.c:543-550 | A byte stored below the old size and not counted shows in the file |
| `FsCode.UncountedExactly` | kernel/fs.c:537-550 | When the loop stores no byte that it does not count, as a condition on the request |
| `FsCode.UncountedByte` | kernel/fs.c:543-550 | A run on any file of two bytes or more: writei returns 0, and the first byte has changed |
| `FsSpec.OthersKept` | kernel/fs.c:528-562 | All other files keep their contents |
| `FsSpace.FillIs` | kernel/fs.c:405-444 | The slots filled by asking for a range of blocks: those of the blocks, and the indirect block if one of them is not direct |
| `FsSpace.NeedOn` | kernel/fs.c:537-550 | What it takes to get a range of blocks is the sum over its parts, also if they share a block |
| `FsSpace.PlaceEnd` | kernel/fs.c:537-555 | The loop of writei finds the disk full if and only if fewer bits are clear than its range takes, and stops at the first block that is not covered |
| `FsSpace.SpentAdded` | kernel/fs.c:537-555 | A block that writei has added is the indirect block or lies before the end of what it has written or tried to copy; on a full disk, before the end of what it counts |
| `FsCode.WriteMeans` | kernel/fs.c:528-562 | What the loop of writei does to the blocks is, in terms of files, the flat write to one of them |
| `FsCode.LoggedTrans` | kernel/fs.c:405-562 | If every step logs what it changes, so does a sequence of steps |
| `FsCode.FileSystem.constructor` | mkfs/mkfs.c:236-250 | The image with no files satisfies the ownership invariant |
| `FsCode.FileSystem.MarkMetadata` | mkfs/mkfs.c:245-247 | Exactly the blocks before the data area are marked |
| `FsCode.FileSystem.ScanMap` | kernel/fs.c:75-78 | The lowest clear bit of one bitmap block |
| `FsCode.FileSystem.FirstFree` | kernel/fs.c:73-86 | The lowest clear bit of all |
| `FsCode.FileSystem.Balloc` | kernel/fs.c:66-89 | Takes the lowest free block, zeroed and held by nobody, and 0 only if every bit is set; logs the bitmap block and the block |
| `FsCode.FileSystem.BmapDirect` | kernel/fs.c:411-419 | A direct address is kept if there is one and otherwise a fresh zeroed block; 0 exactly if there was none and no bit clear |
| `FsCode.FileSystem.LoadRoot` | kernel/fs.c:422-429 | The indirect block is kept or allocated empty, 0 exactly if there was none and no bit clear |
| `FsCode.FileSystem.LoadEntry` | kernel/fs.c:430-440 | The same for an entry of the indirect block |
| `FsCode.FileSystem.Bmap` | kernel/fs.c:405-444 | Returns the block of the file at that index; 0 exactly if fewer bits are clear than blocks are missing on the way to it; fills the slots on the way and no other, changes nothing if the block is there, and logs every block that it changes |
| `FsCode.FileSystem.WriteChunk` | kernel/fs.c:537-549 | One trip of writei stores the accessible part of its piece, and finds the disk full, storing nothing, exactly if fewer bits are clear than its block needs; it touches no other byte of this or any other file and logs every block it changes but the one of a failed copy |
| `FsCode.FileSystem.WriteLoop` | kernel/fs.c:537-550 | Stops only at the end, where the free blocks end, or at a piece that cannot be copied whole; stores exactly what was accessible; takes exactly the blocks that it takes to get there; counts the blocks logged |
| `FsCode.FileSystem.Writei` | kernel/fs.c:528-562 | Refused exactly if it starts beyond the end, wraps or exceeds the largest file; otherwise the file is exactly the flat write of the bytes stored, its size max(size, off+tot), all other files unchanged, no holes, ownership kept; it finds the disk full if and only if fewer bits are clear than blocks are missing, stops then exactly where they end, and has filled exactly the slots up to there; a byte is stored without being counted if and only if the disk is not full and the accessible part of the source ends within a block; every block, bitmap block and inode block that changes is logged, but for the block of a failed copy |
| `FsCode.FileSystem.ReadLoop` | kernel/fs.c:503-517 | Reads the range without changing anything |
| `FsCode.FileSystem.Readi` | kernel/fs.c:494-519 | Returns exactly the bytes of the flat file in the requested range, without allocating; -1 exactly if the destination has no room for them |
| `FsCode.FileSystem.Bfree` | kernel/fs.c:92-106 | The panic exactly if the bit is clear; for an owned block it is unreachable and the block becomes free; the bitmap block is logged |
| `FsCode.FileSystem.FreeDirects` | kernel/fs.c:455-460 | Frees exactly the direct blocks |
| `FsCode.FileSystem.FreeEntries` | kernel/fs.c:464-468 | Frees exactly the blocks in the indirect block |
| `FsCode.FileSystem.FreeIndirect` | kernel/fs.c:462-472 | Frees only blocks of this file |
| `FsCode.FileSystem.Itrunc` | kernel/fs.c:448-476 | Every block of the file is freed, without a panic, and no other; the other files keep their contents; every bitmap block that changes and the inode block are logged |
| `FsCode.WithinAllowance` | kernel/file.c:149-172 | Three blocks at any alignment, with any direct or indirect crossing and any number of bitmap blocks, log fewer than MAXOPBLOCKS blocks before the inode |
| `FsCode.FileSystem.WriteTransaction` | kernel/file.c:160-165 | A chunk is one transaction of at most MAXOPBLOCKS distinct blocks, with fewer than MAXOPBLOCKS logged before each log_write, as the log asks of its callers; it takes exactly the blocks that writei takes, and all that it changes is logged in it, but for the block of a failed copy |
| `FsCode.FileSystem.NextChunk` | kernel/file.c:155-170 | One trip of the loop writes its whole chunk, or the loop ends with it, at the place and for the reason that the state before the call gives |
| `FsCode.FileSystem.Filewrite` | kernel/file.c:149-172 | All chunks stay within the allowance of the log; together they are exactly the flat write of the bytes stored; the place where it ends is given by the size, the clear bits, the filled slots and the accessible part of the source before the call: all is written, or the next chunk is refused, or there is no room for the next byte, or the next piece cannot be copied whole; what is stored beyond that is exactly the accessible part of such a piece |
| `FsCode.EndsOnce` | kernel/file.c:149-172 | There is only one place where a filewrite can end |
| `FsCode.StepFull` | kernel/file.c:160-170 | A transaction that finds the disk full ends where the blocks that were free before the first one end |
| `FsCode.StepOn` | kernel/file.c:160-170 | A chunk that begins within a block takes no block again that the chunks before it have taken |
| `BufferCache.Unlink` | kernel/bio.c:128-129 | The two stores take a buffer out of the ring and leave a ring of the others |
| `BufferCache.Insert` | kernel/bio.c:130-133 | The four stores put it in front |
| `BufferCache.RingWalk` | kernel/bio.c:36-53 | Following next visits the buffers in order and prev in reverse, and both return to the head |
| `BufferCache.RingIsPermutation` | kernel/bio.c:36-53 | Every buffer is met exactly once on the way around |
| `BufferCache.Cache.constructor` | kernel/bio.c:36-53 | binit links all buffers, unused, in one ring |
| `BufferCache.Cache.Find` | kernel/bio.c:66-73 | A buffer for the block if and only if there is one |
| `BufferCache.Cache.FindUnused` | kernel/bio.c:77-87 | The unused buffer that has been unused longest, if there is one |
| `BufferCache.Cache.Bget` | kernel/bio.c:58-89 | One buffer per block of a device; a buffer is recycled only if nobody uses it and the log has not pinned it, and it is the least recently used one; the panic exactly if none is left; with careful callers no change is lost by recycling |
| `BufferCache.Cache.Recycle` | kernel/bio.c:78-86 | The recycled buffer is invalid and had no user and no pin |
| `BufferCache.Cache.Fill` | kernel/bio.c:92-103 | A buffer that is not valid gets the contents of the disk; the result equals the disk unless it has changes of its own |
| `BufferCache.Cache.Bwrite` | kernel/bio.c:106-112 | The disk gets the contents of the buffer, which then has no change of its own; the panic exactly without the lock |
| `BufferCache.Cache.ReleaseSleep` | kernel/bio.c:116-122 | The panic exactly without the lock; every change stays locked or in the log if and only if this buffer was written or pinned since it changed |
| `BufferCache.Cache.DropRef` | kernel/bio.c:124-136 | The reference goes, and an unused buffer moves to the front of the ring |
| `BufferCache.Cache.ToFront` | kernel/bio.c:128-133 | The six stores move a buffer to the front and keep the order of the others |
| `BufferCache.Cache.Bpin` | kernel/bio.c:139-144 | A pin is a reference that keeps the buffer from being recycled |
| `BufferCache.Cache.Bunpin` | kernel/bio.c:146-151 | Every change stays locked or in the log if and only if this was not the last pin of an unlocked buffer with changes |
| `BufferCache.CarelessRelease` | kernel/bio.c:116-137 | A run with any buffer that is locked and not in the log: changed and released, it is unlocked and valid and differs from the disk |
| `BufferCache.Agreement` | kernel/bio.c:91-151 | If callers write or log every change before brelse, a valid buffer that is neither locked nor in the log equals the disk |
| `VmSpec.HardwareAgrees` | kernel/vm.c:85-115 | Translation as the hardware does it (section 4.3.2 of the RISC-V Privileged Architecture) gives, below MAXVA, exactly the mappings of the partial map that are readable, or executable and not writable |
| `VmSpec.ReadableUsable` | kernel/vm.c:222-238 | Every mapping with the read permission, as all that the kernel makes for processes, is one that the hardware accepts |
| `VmSpec.OneUse` | kernel/vm.c:85-115 | Free pages, page-table pages and user pages are pairwise different, and with those in the kernel's hands they are all pages |
| `VmSpec.PathStep` | kernel/vm.c:103-114 | The index bits of an address lead from the root to the entry of its virtual page |
| `VmSpec.MappedAt` | kernel/vm.c:145-174 | Mapping a range adds exactly the range, and no other translation changes |
| `VmSpec.RestoredWhenGone` | kernel/proc.c:263-273 | If only one address space was touched and it is gone again, the same pages are free as before and all others have their role and contents |
| `VmSpec.HaveMore` | kernel/vm.c:103-113 | A walk adds exactly the nodes on its way |
| `VmSpec.BudgetStep` | kernel/vm.c:145-174 | Mapping one page after the other takes exactly the pages that the range takes as a whole |
| `VmSpec.BudgetShort` | kernel/vm.c:145-174 | If the pages run out on the way, they were too few for the range |
| `VmSpec.HaveRoot` | kernel/proc.c:176-206 | A new page table has its root only, and the trampoline takes two nodes |
| `VmSpec.TopShared` | kernel/proc.c:192-203 | The trapframe is mapped by the nodes of the trampoline, so that its error exit is never taken |
| `VmCode.Kernel.constructor` | kernel/kalloc.c:26-31 | After kinit every page is on the free list |
| `VmCode.Kernel.Freerange` | kernel/kalloc.c:33-40 | The loop frees every page once |
| `VmCode.Kernel.Kalloc` | kernel/kalloc.c:68-82 | A page that was free and now belongs to the caller; 0 exactly when there is none |
| `VmCode.Kernel.Kfree` | kernel/kalloc.c:46-63 | The page goes on the free list; the panic exactly for an address that is unaligned or out of range |
| `VmCode.Kernel.Descend` | kernel/vm.c:103-113 | One level of walk: the child node, created empty on request; 0 exactly if there is none and it was not asked for or no page was free |
| `VmCode.Kernel.Walk` | kernel/vm.c:97-115 | The level-0 entry of the virtual page; no translation changes; when allocating, 0 exactly if fewer pages are free than nodes are missing on the way, and otherwise exactly those are added |
| `VmCode.Kernel.MapPage` | kernel/vm.c:163-167 | Adds the one translation; the panic exactly on a remap; out of memory exactly if fewer pages are free than nodes are missing |
| `VmCode.Kernel.Mappages` | kernel/vm.c:145-174 | Adds exactly its range and takes exactly the nodes that are missing; the panic only for bad arguments or a remap; out of memory only if fewer pages are free than nodes are missing; failure leaves exactly the pages done |
| `VmCode.Kernel.UnmapPage` | kernel/vm.c:201-211 | Removes one translation, present or not |
| `VmCode.Kernel.Uvmunmap` | kernel/vm.c:192-212 | Removes exactly its range and, if asked, frees the pages; the panic exactly if unaligned |
| `VmCode.Kernel.Uvmdealloc` | kernel/vm.c:246-258 | Removes exactly the pages between the sizes |
| `VmCode.Kernel.AllocPage` | kernel/vm.c:227-237 | A fresh page with the given contents is mapped, or nothing is, and that exactly if fewer pages are free than the page and the nodes missing on the way |
| `VmCode.Kernel.Uvmalloc` | kernel/vm.c:216-240 | All pages between the sizes are mapped to zeroed pages of their own, or none, and that exactly if fewer pages are free than those pages and the nodes missing for them; all other pages keep mapping and contents |
| `VmCode.Kernel.Rollback` | kernel/vm.c:228-236 | The error exit restores the map |
| `VmCode.Kernel.Freewalk` | kernel/vm.c:262-278 | Frees exactly the nodes below; with no leaf left its panic is unreachable |
| `VmCode.Kernel.Uvmfree` | kernel/vm.c:282-288 | Frees the user pages and the whole tree |
| `VmCode.Kernel.Uvmcreate` | kernel/vm.c:178-187 | A new, empty tree |
| `VmCode.Kernel.Vmfault` | kernel/vm.c:452-473 | Maps a zeroed page of its own, and fails exactly if the address is not below the size, or mapped, or fewer pages are free than the page and the nodes missing on the way; no other page but new nodes of this page table changes its role |
| `VmCode.Kernel.IsMapped` | kernel/vm.c:475-486 | True exactly if the page is in the map |
| `VmCode.Kernel.CopyPage` | kernel/vm.c:304-318 | A mapped page is copied with its flags to a page of its own; fails exactly if fewer pages are free than it and the nodes missing on the way |
| `VmCode.Kernel.Uvmcopy` | kernel/vm.c:296-324 | The child gets equal contents and flags in fresh pages, or its map is as before, and that exactly if fewer pages are free than the parent maps and nodes are missing for them |
| `VmCode.Kernel.CopyUndo` | kernel/vm.c:321-323 | The error exit restores the map |
| `VmCode.Kernel.ProcPagetable` | kernel/proc.c:176-206 | Trampoline and trapframe are mapped; a failure restores everything, and happens exactly if fewer than three pages are free: the trapframe needs no node of its own |
| `VmCode.Kernel.DiscardTop` | kernel/proc.c:198-203 | The second error exit restores everything as well; it is never taken |
| `VmCode.Kernel.ProcFreepagetable` | kernel/proc.c:210-216 | Nothing of the address space is left |
| `VmCode.Kernel.Fork` | kernel/proc.c:256-273 | A copy of the address space in pages of its own; only the trapframe, the new page table and its pages were taken from the free list, and all other pages are kept; a failure at any allocation leaves the same pages free as before, and there is one exactly if fewer pages are free than the trapframe, the page table, the pages of the parent and the nodes for them |
| `VmCode.Kernel.Freeproc` | kernel/proc.c:155-172 | The error exit of kfork gives back trapframe and page table |
| `ProcTheorems.KeepInv` | kernel/proc.c:256-584 | Every step of every scheduler and thread keeps the invariant |
| `ProcTheorems.RunInv` | kernel/proc.c:256-584 | It holds along every run |
| `ProcTheorems.ReachableInv` | kernel/proc.c:219-584 | It holds in every reachable state, for any number of CPUs and processes |
| `ProcTheorems.LoadedOnce` | kernel/proc.c:421-460 | No process context is loaded on two CPUs |
| `ProcTheorems.RunningExactly` | kernel/proc.c:414-510 | Whenever p->lock is free, p is RUNNING exactly when one CPU has c->proc == p, and never two |
| `ProcTheorems.NeverPanics` | kernel/spinlock.c:21-82 | Each lock is released by the CPU that acquired it, no CPU acquires a lock it holds, sched finds p->lock as the only lock and p not RUNNING, and an exited thread never resumes |
| `ProcTheorems.NoLostWakeup` | kernel/proc.c:367-412 | Whenever wait_lock is free, a process asleep in kwait has a child and no ZOMBIE child |
| `ProcTheorems.FreedOnce` | kernel/proc.c:379-397 | A zombie is freed once, after its context was saved and with no CPU on its stack |
| `ProcTheorems.Older` | kernel/proc.c:307-318 | Ancestors are live, not zombies, and strictly older |
| `ProcTheorems.Ancestry` | kernel/proc.c:307-318 | The parent chain of every live process has no cycle and ends at initproc |
| `ProcRuns.Dispatches` | kernel/proc.c:437-455 | A scheduler that comes to a RUNNABLE process whose lock is free can take the four steps that run it, and ends with its context loaded, c->proc set, the state RUNNING, the lock free and nothing else changed |
| `ProcRuns.Passes` | kernel/proc.c:437-456 | It passes over any other and changes nothing |
| `ProcRuns.Sweeps` | kernel/proc.c:435-456 | A scheduler comes round to the first RUNNABLE process ahead of it and runs that one |
| `ProcRuns.WokenRuns` | kernel/proc.c:571-608 | A sleeper that a wakeup or a kill meets can be run, and goes on where it slept |
| `ProcRuns.Yields` | kernel/proc.c:491-498 | yield leaves the process RUNNABLE with its context saved and its lock free, and the CPU at the next slot |
| `ProcRuns.FallsAsleep` | kernel/proc.c:540-566 | The same for sleep, with the process SLEEPING on its channel |
| `ProcRuns.Forks` | kernel/proc.c:257-303 | kfork makes the slot a RUNNABLE child of the caller, younger than all, and changes nothing else |
| `ProcRuns.ReapsFirst` | kernel/proc.c:368-397 | kwait frees the first child that has exited, and changes nothing else |
| `ProcRuns.WaitsForNone` | kernel/proc.c:368-405 | kwait of a process without children changes nothing |
| `ProcRuns.WaitsAsleep` | kernel/proc.c:368-411 | kwait of a process with children of which none has exited leaves it asleep on itself, with both locks free |
| `ProcRuns.Exits` | kernel/proc.c:324-365 | kexit runs to its end: the children are given to initproc, initproc and the parent are awake if they slept in kwait, and the process is a zombie off the CPU; nothing else changes |
| `ProcRuns.ExitWakes` | kernel/proc.c:308-365 | What others see of that: the parents of all processes afterwards, and that a parent asleep in kwait can run |
| `ProcRuns.ParentFrees` | kernel/proc.c:324-411 | A process exits while its parent sleeps in kwait: the parent, run by another CPU, frees it or a child that it has left |
| `ProcRuns.GoesUnlessWaiting` | kernel/spinlock.c:21-44 | In every reachable state a CPU can take the next step of its code exactly if the lock that it wants is free |
| `ProcRuns.NoDeadlock` | kernel/spinlock.c:21-44 | In every reachable state a CPU that cannot go on waits for another one that can, or for the holder of wait_lock, which waits for one that can |
| `ProcMachine.Moves` | kernel/proc.c:469-498 | A loaded thread may move on, change its state and take or give up its own lock without disturbing the schedulers |
| `ProcMachine.ThreadFacts` | kernel/proc.c:469-487 | myproc() is the loaded process, and its lock is held by this CPU exactly where the code relies on it |
| `Virtio.DisjointTriples` | kernel/virtio_disk.c:155-213 | Chains in flight are disjoint triples, and free[] marks exactly the other descriptors |
| `Virtio.RoomLeft` | kernel/virtio_disk.c:271-277 | While a request is outside a ring fewer than NUM entries are outstanding in it |
| `Virtio.Append` | kernel/virtio_disk.c:271-277 | Publishing overwrites no entry that was not consumed |
| `Virtio.SameIndex` | kernel/virtio_disk.c:312-314 | Across 16-bit wrap the index comparison is right |
| `Virtio.SameEntry` | kernel/virtio_disk.c:272-277 | Across 16-bit wrap an index selects the same ring entry |
| `Virtio.ReadChain` | kernel/virtio_disk.c:235-269 | What device and driver read along a chain, header, data and status addresses and directions included, is what was submitted |
| `Virtio.Driver.constructor` | kernel/virtio_disk.c:61-153 | All descriptors free and both rings empty |
| `Virtio.Driver.AllocDesc` | kernel/virtio_disk.c:156-166 | The lowest free descriptor, -1 exactly if there is none |
| `Virtio.Driver.FreeDesc` | kernel/virtio_disk.c:169-182 | The panics exactly for a bad or free descriptor |
| `Virtio.Driver.FreeChain` | kernel/virtio_disk.c:185-197 | Frees exactly the three descriptors of a chain, without a panic |
| `Virtio.Driver.Alloc3Desc` | kernel/virtio_disk.c:201-213 | Three different free descriptors, or none taken, and then fewer than three are free |
| `Virtio.Driver.Submit` | kernel/virtio_disk.c:215-281 | The request is in flight under a new chain, its buffer marked, everything else as before |
| `Virtio.Driver.Publish` | kernel/virtio_disk.c:271-277 | The next available entry; no unread one is overwritten |
| `Virtio.Driver.Take` | kernel/virtio_disk.c:271-281 | The device gets the chains in the order they were made available |
| `Virtio.Driver.Complete` | kernel/virtio_disk.c:235-265 | In any order, the device moves the data that the submitter asked for between the disk and the submitter's buffer |
| `Virtio.Driver.Transfer` | kernel/virtio_disk.c:235-265 | The device finds the header, the buffer and the status byte of this very request through the descriptors, and writes only where it may |
| `Virtio.Driver.PostUsed` | kernel/virtio_disk.c:309-314 | The next used entry; no unread one is overwritten |
| `Virtio.Driver.SeeUsed` | kernel/virtio_disk.c:312-324 | Clears b->disk of the buffer that submitted the request; the panic on the status is unreachable |
| `Virtio.Driver.Intr` | kernel/virtio_disk.c:294-327 | Exactly the completed requests become done, and exactly their buffers lose their mark |
| `Virtio.Driver.Finish` | kernel/virtio_disk.c:283-291 | Exactly the request's descriptors are freed |
| `Malloc.CircleFree` | user/umalloc.c:24-44 | free keeps the list circular and in address order, in all four cases of coalescing |
| `Malloc.ApartFree` | user/umalloc.c:24-44 | The block to be freed overlaps neither neighbour |
| `Malloc.TiledJoin` | user/umalloc.c:33-42 | Coalescing keeps every unit in exactly one block and no two free blocks abutting |
| `Malloc.TakenWhole` | user/umalloc.c:76-77 | An exact fit leaves a correct list |
| `Malloc.TakenTail` | user/umalloc.c:78-82 | A split leaves a correct list and disjoint blocks |
| `Malloc.OnTheCircle` | user/umalloc.c:24-44 | Every free block is reached from the list head, through the blocks before it, and the last links back |
| `Malloc.Units` | user/umalloc.c:69 | A header and enough units for the bytes, but not one more |
| `Malloc.Heap.FindPlace` | user/umalloc.c:30-32 | Terminates at the last free block before the given one |
| `Malloc.Heap.Free` | user/umalloc.c:24-44 | The block leaves the allocated ones and its units are in one free block; no unit is lost |
| `Malloc.Heap.Morecore` | user/umalloc.c:46-61 | The new units are in one free block that is large enough; 0 exactly if the system refuses |
| `Malloc.Heap.Carve` | user/umalloc.c:75-85 | The last n units of the given free block, which were not allocated |
| `Malloc.Heap.Begin` | user/umalloc.c:70-73 | The list with the static head only |
| `Malloc.Heap.Malloc` | user/umalloc.c:63-90 | A block of its own of the right size, the end of the first free block after freep that fits; 0 if and only if no free block fits and the system refuses; at most one morecore, and none if some free block fits; the search terminates |
| `Pipe.Tests` | kernel/pipe.c:88 | The tests for empty and full are right across wrap of the 32-bit counters |
| `Pipe.RingPut` | kernel/pipe.c:95 | A byte put in overwrites no byte that was not consumed |
| `Pipe.RingGet` | kernel/pipe.c:123 | The byte taken out is the oldest one |
| `Pipe.PipeBuffer.constructor` | kernel/pipe.c:22-56 | An empty pipe, open at both ends |
| `Pipe.PipeBuffer.Put` | kernel/pipe.c:95 | Accepts one byte |
| `Pipe.PipeBuffer.Get` | kernel/pipe.c:123 | Consumes the oldest byte |
| `Pipe.PipeBuffer.Write` | kernel/pipe.c:76-103 | Accepts a prefix of the source; fails exactly if nobody can read or a kill is noticed before the source, its accessible part or the room in the pipe ends; sleeps exactly if the room ends first; and, if no sleeper was without cause before, exactly for which requests one is afterwards: those with a reader asleep, the read end open, and a kill that is noticed after the first byte |
| `Pipe.PipeBuffer.Read` | kernel/pipe.c:105-130 | Consumes the oldest bytes in order; when it sleeps, fails and stops; a byte is consumed without being copied out if and only if the destination ends before the bytes wanted and before those there; no sleeper is left without cause |
| `Pipe.PipeBuffer.Close` | kernel/pipe.c:58-74 | Wakes the other side; freed exactly when both ends are closed |
| `Pipe.PipeBuffer.Kill` | kernel/proc.c:589-608 | Keeps the property of sleepers |
| `Pipe.KilledWriter` | kernel/pipe.c:84-87 | A run in which a killed writer leaves a reader asleep on a pipe that is not empty |
| `Pipe.LostByte` | kernel/pipe.c:120-126 | A run in which a byte is consumed and piperead returns 0 |
| `ShellSpec.RoundTrip` | user/sh.c:333-452 | Parsing the printed form of any command tree with word tokens and at most nine arguments per command gives back the tree |
| `ShellSpec.LineBack` | user/sh.c:350-365 | The same for a list within a longer line |
| `ShellSpec.BackBack` | user/sh.c:350-358 | The same for background commands |
| `ShellSpec.PipeBack` | user/sh.c:367-378 | The same for pipelines |
| `ShellSpec.BlockBack` | user/sh.c:405-419 | The same for parenthesized commands with redirections |
| `ShellSpec.SimpleBack` | user/sh.c:421-452 | The same for simple commands with redirections before and after the words, which apply in the order in which they are written |
| `ShellSpec.RedirsBack` | user/sh.c:380-403 | The same for redirections |
| `ShellSpec.WordsBack` | user/sh.c:435-448 | The same for arguments |
| `ShellGrammar.ParsedExactly` | user/sh.c:333-452 | The parser accepts a line if and only if its tokens are derived by the grammar, a definition without a parser, with words and redirections in any order, blocks, pipelines, lists and background commands; the result is then, token for token, the command that the grammar gives the line |
| `ShellGrammar.Unambiguous` | user/sh.c:333-452 | No line is derived as two commands |
| `ShellGrammar.SimpleRead` | user/sh.c:421-452 | A simple command with redirections anywhere is read as its words in redirections that apply in the order in which they are written |
| `ShellGrammar.PartRead` | user/sh.c:405-452 | What the grammar derives as a part of a pipeline is read as that |
| `ShellGrammar.LineRead` | user/sh.c:350-365 | The same for lists |
| `ShellGrammar.PartFound` | user/sh.c:405-452 | What is read as a part of a pipeline is derived by the grammar as that |
| `ShellGrammar.LineFound` | user/sh.c:350-365 | The same for lists |
| `ShellCode.ParsedOk` | user/sh.c:271-452 | On every input, each argument and file token of the result is a maximal run of word characters of the input |
| `ShellCode.Canonical` | user/sh.c:333-452 | The converse of the round trip: whatever the parser accepts stands for a tree that can be printed, and its printed form parses to the same tree |
| `ShellCode.AllRead` | user/sh.c:455-499 | After the cuts every argument and file pointer reads as its word |
| `ShellCode.EndsBetween` | user/sh.c:455-499 | No cut falls into a token |
| `ShellCode.Nulterminate` | user/sh.c:455-499 | Exactly the characters after the tokens are overwritten |
| `ShellCode.Parser.SkipWhite` | user/sh.c:278-279 | Moves to the first character that is not white space |
| `ShellCode.Parser.PeekFor` | user/sh.c:316-326 | True exactly if the next character is one of the set |
| `ShellCode.Parser.GetToken` | user/sh.c:271-314 | Kind, place and text of the next token, and the cursor after it and the white space behind it |
| `ShellCode.Parser.ScanWord` | user/sh.c:303-304 | The longest run of word characters |
| `ShellCode.Parser.Redirections` | user/sh.c:380-403 | Panics exactly where the grammar does, and otherwise the redirections in order |
| `ShellCode.Parser.Arguments` | user/sh.c:435-450 | The same for the arguments and the redirections between them, with the limit on arguments |
| `ShellCode.Parser.ExecCommand` | user/sh.c:421-452 | Does what the parser as a function does on simple commands and blocks |
| `ShellCode.Parser.Block` | user/sh.c:405-419 | Refines the grammar of blocks |
| `ShellCode.Parser.PipeCommand` | user/sh.c:367-378 | Refines the grammar of pipelines |
| `ShellCode.Parser.Ampersands` | user/sh.c:355-358 | Refines the loop over & |
| `ShellCode.Parser.LineCommand` | user/sh.c:350-365 | Refines the grammar of lists; the recursion ends on every input |
| `ShellCode.ParseCmd` | user/sh.c:333-348 | A command exactly if the grammar derives the line, and then the one that it derives; its pointers read as its words, and nothing else in the buffer has changed |
| `Grep.MatchHere` | user/grep.c:84-96 | True exactly if the pattern describes a prefix of the text |
| `Grep.MatchStar` | user/grep.c:98-106 | True exactly if some run of the starred character is followed by the rest of the pattern |
| `Grep.Match` | user/grep.c:72-82 | True exactly if the pattern describes a piece of the text, for ^ . * $ and literals |
| `Grep.PrefixStar` | user/grep.c:98-106 | The meaning of a starred element, unfolded as the loop does it |
| `Grep.PrefixOne` | user/grep.c:93-94 | The meaning of a single element |
| `Grep.Strchr` | user/grep.c:22 | The first newline, if it comes before a NUL |
| `Grep.Line` | user/grep.c:23-28 | Writes the line exactly if it matches |
| `Grep.Lines` | user/grep.c:22-29 | What is written and what is left are together what the input calls for |
| `Grep.Grep` | user/grep.c:11-35 | However read splits the input, the output is the selected lines; a prefix of them if a read fails |
| `Grep.CutOff` | user/grep.c:18-33 | On any input the matching lines are what grep writes followed by the matching lines from the first line on that is not ended, holds a NUL or does not fit the buffer |
| `Grep.AllLines` | user/grep.c:18-33 | So grep writes all matching lines if and only if none of those matches |
| `Grep.LongLineHides` | user/grep.c:18-33 | A line that does not fit the buffer hides every matching line after it |
| `Grep.DroppedLine` | user/grep.c:18-33 | An input of 1026 characters of which grep drops a matching line |
| `Grep.OrdinaryText` | user/grep.c:11-35 | For input without NUL whose lines fit the buffer, the selected lines are exactly the matching newline-terminated lines |

## Left out

- Torn or reordered disk writes: the log assumes that a block write is atomic and synchronous, and so does the model.
- Weak memory ordering, the atomic swap in acquire and interrupt masking: spinlocks and sleep-locks are atomic steps.
- swtch, traps, boot and assembly: swtch is a control transfer between a scheduler and a thread.
- Path lookup, directories, link counts, inode allocation and sysfile.c.
- copyin, copyout and copyinstr themselves, uvmclear, the kernel's own page table and kexec; pages of the kernel's own
  page table count as held by the kernel.
- The lengths in virtio descriptors, and the setup of the device.
- Console, UART, PLIC, printf, and the small utilities and tests.
- runcmd and the other parts of the shell that are not its parser.
- FsCode.FileSystem.Filewrite: other processes that change the same file between two chunks are not modelled; each
  method of the file system is one critical section under the inode's lock.
- FsCode.FileSystem.StoreChunk: what a failing copy leaves in a buffer is not logged, so it is lost again if the buffer
  is replaced before the block is logged; the model keeps it.
- FsCode.FileSystem.Itrunc: does not bound the blocks that a truncation logs.
- VmCode.Kernel.Uvmalloc: asks for a new size of at most TRAPFRAME; growproc and the eager branch of sbrk check this,
  the lazy branch checks only for wraparound (kernel/sysproc.c:58), and Vmfault has the same precondition.
- VmCode.Kernel.Fork: the operations on memory of one process are atomic with respect to those of others; they share
  only the free list, which has its own lock.
- VmCode.Kernel.ProcPagetable: the second error exit (kernel/proc.c:198-203) is proved to be dead code, so the method
  does not contain it; what it would do is `VmCode.Kernel.DiscardTop`.
- Malloc.Heap.Malloc: asks for a request whose size in bytes fits an int, as morecore passes it through one
  (user/umalloc.c:54); it does not follow the contents of allocated blocks.
- LogMachine.Reachable: the header of the first disk names no block twice, as every header that the log writes.
- ProcTheorems.NoLostWakeup: about wait; that other users of sleep and wakeup recheck their conditions is shown for the
  log and for pipes only.
