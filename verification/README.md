# testFS: a verified model

testFS is a small block file system in C: files mapped through four direct slots and one indirect block over
a bitmap allocator, directories kept as byte logs inside files, a checksum table, a `checkfs` command that rebuilds the
freemaps, and a second, asynchronous write path whose requests run on reactors. This project models that code in
Dafny, step by step and in its own imperative form, and proves what its commands promise.

The main results, from the bottom up:

* **Requests.** Reactors move and complete the requests in flight in any order. As long as no request in flight
  touches a block that another one writes, every order ends in the same device and the same buffers
  (`Reactors.OrderDoesNotMatter`), and the busy wait over the counters, which looks at one reactor at a time, is
  enough (`Reactors.SequentialChecksSuffice`, `Device.Device.SpinWait`).
* **One file.** Writing overlays bytes on the file, reading gives the slice, truncating gives the prefix, and nothing
  else on the volume changes. How a write ends is a function of what its caller can see, on every volume
  (`Inodes.WriteOutcome`, `Inodes.LacksSlotWhen`); a failed one is undone exactly, but for one case, which is told
  exactly.
* **All files.** Every operation keeps one invariant: each allocated block belongs to exactly one live inode, checksums
  are right, directories form a tree. In any session of commands from `mkfs` on every command answers what is told of
  it and does just that, and when the session is over `checkfs` comes back and finds nothing wrong exactly when the
  current directory has no unsaved changes; so it does whenever every command succeeded (`Shell.Session`,
  `Shell.SessionThenCheck`, `Shell.DirtyWhen`). The freemap counts add up (`Conservation`).
* **Commands.** What each command answers and does is said once more without the functions that the contracts use, over
  records, names, bytes and blocks: `cd /` goes to the root, a directory cannot be removed exactly when it names
  something else, `mkdir` and `rm` undo each other, `owrite` ends the file behind its content, and what is given back is
  full of zeroes (`Effects`). At every time of a session the directories are a tree, so that all of it applies
  (`Effects.AlwaysTree`).
* **Two write paths.** The alternate path, with its cached indirect block and lazy flushing, has the very effect of the
  ordinary one (`Alternate.WriteIs`) and succeeds on the same writes but for one case (`Alternate.PathsAgree`). In any
  run of writes, single saves and bulk saves every cached indirect block stays right (`Cache.Run`, `Cache.RunOps`).
  Saving many inodes sorted by block is saving them one by one in any order, with one read and one write of each inode
  block (`Bulk.BulkSync`, `Bulk.AnyOrder`). The asynchronous sequence of the end-to-end benchmark ends in the same world
  as the synchronous one, for every order of completion (`Bench.BenchmarkSyncWrites`, `BenchAsync.BenchmarkAsyncWrites`,
  `Bench.BenchedSame`).
* **Remounting** finds a consistent file system, with the same files, exactly when the checksums of all blocks of files
  are on the device (`Mounting.RemountedWhen`, `Mounting.Restart`), and the whole table exactly when all of it is
  (`Mounting.ReloadedTable`). When some are lost, `checkfs` lists exactly their blocks (`Shell.RestartThenCheck`). Both
  benchmark sequences save all there is, so that a mount right after them finds the very world they leave
  (`BenchAsync.BenchmarkAndMount`).
* **In memory.** The hash table of inodes over linked lists finds, inserts and removes as one over sequences does
  (`Hlist.LinkedTable`), and an inode is in it, with its count, exactly while it is held (`Holding.UseAll`).
* **Shortcomings.** Where a promise fails, its exact condition is proved, and an input: a session from `mkfs` on
  (`Mishaps.TouchTooLong`, `Mishaps.LosingSession`), or commands on a device image that mounts as a consistent file
  system (`Mishaps.MountCrowded`, `Mishaps.BothPaths`, `Mishaps.UndoFails`).

## How it is built

`Bytes`, `Layout`, `Checksum`, `Bitmap` hold the formats; `Reactors` and `Device` the requests; `Volume`, `Steps`,
`Super`, `Inodes` the block map and its operations; `Dirents`, `Tree`, `DirOps`, `FileOps` directories and single
files; `World`, `Table`, `Contexts`, `Commands`, `Paths`, `Check`, `Mounting`, `Shell`, `Conservation` the whole file
system, and `Effects` what its commands come to; `Alternate`, `AltPath`, `WriteCommand`, `Bulk`, `BulkAsync`, `Batch`,
`Bench`, `BenchAsync`, `Cache` the alternate path and its sequences and runs; `Hlist` and `Holding` the linked lists
of the inode table and who is in it; `Limits` the inputs for which the program falls short, `Crowded` almost full file
systems in which they come about, and `Mishaps` whole sessions that meet them.

A value of type `Vol` is the device, the block freemap and the checksum table; a `World` adds the inode freemap and
the current dinode of every inode number; `FilesOf` gives the files that makes. Methods change objects as the C code
does and promise, in terms of these values, what has become of them. `Device.Disk()` is the device as it will be when all
writes in flight have landed, so that the same functions describe the synchronous and the asynchronous code. Its ghost
fields `readLog` and `writeLog` keep every request that was issued, in order, so that a contract can say that a block
was read or written once.

Results carry an `Outcome`: `Done`, `Failed(errno)` for a negative return value, or `Aborted(...)` for an assertion of
the program that this run violates. The contracts say exactly when each comes about, in terms of what a caller could
see before the call (`Inodes.WriteOutcome`, `Commands.CreateOutcome` and others).

## What the code does that one might not expect

* The last free block can go into an indirect block that nothing needs: appending to a file of exactly 2048 bytes with
  one free block left (src/inode.c:145-161). A later truncation or `rm` then violates an assertion
  (`Limits.LastBlockLeaks`, `Limits.LeakingWorld`, `Commands.CmdRm`). When the file was shorter, the undoing of the very
  write does (`Limits.UndoViolates`).
* Writing nothing at the end of the mapped blocks maps a block (`World.AfterWrite`, `Limits.EmptyWriteMapsABlock`);
  reading nothing there violates an assertion (`Inodes.Inode.ReadData`). No command does either.
* Data blocks from 7680 on have no slot in the checksum table, and inode numbers from 2048 on no place in the inode blocks:
  `Aborted(CsumSlot)` and `Aborted(InodeSlot)`. As blocks are taken first-fit, a write meets such a block exactly when it
  needs more blocks than are free with a slot, and can have them (`Inodes.LacksSlotWhen`).
* On the ordinary path the indirect block takes the lower of two free blocks, on the alternate path the data block does.
  With two free blocks of which one has a slot, appending to a file of 2048 bytes violates an assertion on the one and
  goes through on the other (`Limits.AppendToFull`, `Limits.PathsDiffer`).
* `testfs_truncate_data` and `testfs_allocate_block` do not know of a cached indirect block; when they leave it wrong is
  told exactly (`Cache.TruncateCached`, `Cache.AllocateCached`).
* The alternate write splits its bytes rightly only from the start or the middle of a block on (`Limits.SplitFits`); every
  caller starts at 0.
* A `touch` or `mkdir` that fails while adding its record leaves the current directory with unsaved changes, and the next
  command that puts it back violates an assertion (`Commands.CreateFileOrDir`, `Check.CmdCheckfs`, `Commands.CmdCd`). In a
  new file system a name of 67555 characters or more does it (`Mishaps.FirstTouch`, `Mishaps.TouchTooLong`).
* Names may hold slashes, and then different directories print the same path (`Paths.SamePath`).
* `owrite` keeps the low 32 bits of its offset: with offset 4294967296 it starts at 0 (`Commands.CmdOwrite`).
* `write` ends in an assertion, because it then saves an unchanged inode, when its content fits no file, or needs new
  blocks and none is free (`Limits.TooMuchToReplace`). The truncation that follows a `write` uses the indirect block on
  the device, not the cached one, which is safe only because the cached one changes only when the file grows to its new
  end (`Alternate.WriteClean`).
* Leaving the shell does not save the checksum table: after `write`, which does not either, a restart brings the old
  table back, and the file system is damaged unless every block of every file has the checksum that its place had before
  (`Limits.ChecksumsAreLost`, `Limits.LostChecksumDamages`). `touch`, `write` and a restart can do it
  (`Mishaps.LosingSession`).
* `testfs_create_empty_dir` undoes its first record when the second cannot be written, which never happens:
  both fit in one block (`Commands.CreateEmptyDir`).

## Model

| member | source | states |
|---|---|---|
| Bytes.DecodeEncodeInt | include/inode.h:19-25 | every 32-bit integer survives its four little-endian bytes |
| Bytes.OfIntsToInts | src/inode_alternate_common.c:11-22 | a block read as 128 integers and written back is the same block |
| Layout.DecodeEncodeDInode | src/inode.c:206-222 | a dinode copied into its place in an inode block is read back unchanged |
| Layout.DecodeEncodeOther | src/inode.c:206-222 | the neighbouring dinodes in the block are preserved |
| Layout.FieldWords | include/inode.h:19-25 | which word of an inode block holds which field of an inode, for reading and for writing, and that no other word is written |
| Layout.InodePlace | src/inode.c:67-90 | in which block and words of the device each field of an inode is |
| Layout.EncodeDInodeCommutes | src/inode_alternate_sync.c:136-150 | two dinodes may be put into one block in either order |
| Checksum.CalculateCsum | src/csum.c:64-76 | the loop computes the exclusive or of all 128 words, which `Checksum.CsumBits` tells bit by bit |
| Checksum.OneWordIsDetected | src/csum.c:78-93 | in a sequence of words of any length, changing one changes the exclusive or of all |
| Checksum.ChangedWordIsSeen | src/csum.c:78-93 | changing a word of a block, whichever of the 128, changes its checksum |
| Checksum.SingleWord | src/csum.c:64-76 | a block with a single word that is not zero has that word as its checksum, wherever it is |
| Checksum.CsumBits | src/csum.c:64-76 | bit `k` of the checksum is set exactly when an odd number of the 128 words of the block have it |
| Bitmap.FirstClearIs | src/bitmap.c:70-90 | the search stops at the least clear bit, or at the end exactly when all bits are set |
| Bitmap.BitIs | src/bitmap.c:100-128 | bit `k` of a byte is the one that counts 2 to the power `k` |
| Bitmap.BitsOfBitsBlock | src/super.c:159-169 | a freemap block written from bits gives the same bits when read |
| Bitmap.OnesUpdate | src/bitmap.c:100-120 | setting or clearing one bit changes the count by one |
| Bitmap.FirstFit | src/super.c:210-220 | the allocator takes from the first `n` bits as long as one of them is clear, and then leaves one less |
| Bitmap.Bitmap.constructor | src/bitmap.c:31-67 | all usable bits are clear and the leftover bits of the last byte are set |
| Bitmap.Bitmap.Alloc | src/bitmap.c:70-90 | takes the least clear bit; fails, changing nothing, exactly when all are set |
| Bitmap.Bitmap.Mark | src/bitmap.c:100-109 | sets one clear bit and no other |
| Bitmap.Bitmap.Unmark | src/bitmap.c:111-120 | clears one set bit and no other |
| Bitmap.Bitmap.Equal | src/bitmap.c:136-146 | comparing bytes decides whether the bit sets are equal |
| Bitmap.Bitmap.NrAllocated | src/bitmap.c:148-156 | counts the set bits |
| Reactors.NextQuiet | src/block.c:36-81 | a step of a reactor changes neither what the device settles to nor what any buffer will hold |
| Reactors.RunQuiet | src/block.c:36-81 | nor does any run of steps |
| Reactors.NeverStuck | src/async.c:15-19 | while a request is in flight some reactor can take a step, and no longer |
| Device.Device.Step | src/async.c:15-19 | every step leaves less work in flight, so that steps run out |
| Reactors.OrderDoesNotMatter | src/block.c:36-81 | two runs that complete all requests in any two orders leave the same device and buffers |
| Reactors.SequentialChecksSuffice | src/async.c:21-25 | seeing the counters equal one reactor after another, at different times, means that nothing is in flight on the future |
| Reactors.FilledWhenWaited | src/block.c:36-46 | after the wait the buffers of its reads hold what was settled when the reads were issued |
| Device.Device.FutureInit | src/async.c:27-32 | a new future has nothing in flight |
| Device.Device.SpinWait | src/async.c:21-25 | it ends, nothing is in flight on the future any more, its reads are in place, and the settled device is the same |
| Device.Device.WriteBlocksAsync | src/block.c:141-154 | the buffer is copied at issue: the device settles to it, and only these blocks are in flight more |
| Device.Device.ReadBlocksAsync | src/block.c:116-129 | a new buffer will hold what is settled in these blocks now |
| Device.Device.ReadBlocks | src/block.c:106-114 | the answer is what is settled; other requests stay in flight |
| Device.Device.WriteBlocks | src/block.c:131-139 | the blocks are written, whatever else is in flight |
| Device.Device.ZeroBlocks | src/block.c:156-162 | exactly these blocks are zero afterwards |
| Super.SuperBlock.constructor | src/super.c:51-107 | freemaps and checksum table are those on the device |
| Super.SuperBlock.AllocBlock | src/super.c:210-220 | the least free block, taken in memory and in the freemap block on the device that holds its bit, with nothing else changed; fails exactly when there is none |
| Super.SuperBlock.FreeBlock | src/super.c:222-228 | the block is full of zeroes on the device, and its bit is clear, in memory and in the freemap block on the device that holds it; nothing else changed |
| Super.SuperBlock.AllocInode | src/super.c:190-200 | the least free inode number |
| Super.SuperBlock.FreeInode | src/super.c:202-206 | gives one inode number back |
| Super.SuperBlock.PutCsum | src/csum.c:53-62 | sets one entry and writes its table block |
| Super.SuperBlock.SetCsum | src/csum.c:95-102 | sets one entry and marks its table block dirty |
| Super.SuperBlock.FlushCsum | src/csum.c:124-140 | writes the dirty table blocks and no others, and clears all marks |
| Super.SuperBlock.VerifyCsum | src/csum.c:78-93 | answers whether the entry is the checksum of the block |
| Super.SuperBlock.WriteWholeBlockFreemap | src/super.c:344-351 | both freemap blocks are those of the bits in memory |
| Super.FlushedTableIsOnDisk | src/csum.c:124-140 | after the flush the table read from the device is the one in memory, if clean blocks were saved before |
| Super.EntryAt | src/csum.c:53-62 | entry `i` of the checksum table is word `i % 128` of its block `i / 128` |
| Volume.MapIndirect | src/inode.c:155-161 | putting the next block into the indirect block keeps the mapping a gap-free prefix of distinct blocks |
| Volume.OwnStepTrans | src/inode.c:324-350 | steps that touch one file only compose |
| Steps.GrowIndirect | src/inode.c:116-162 | mapping one more block through the indirect block takes one free block and keeps every other byte |
| Steps.GrowFresh | src/inode.c:145-154 | a fresh, empty indirect block is gained and the mapped blocks are as they were |
| Steps.CutStep | src/inode.c:356-398 | cutting the mapping gives back exactly the blocks behind the cut, and the indirect block when it is not needed; what is given back is full of zeroes |
| Inodes.Inode.GetBlock | src/inode.c:98-114 | the mapped block and its bytes, or 0 |
| Inodes.Inode.AllocateBlock | src/inode.c:116-162 | maps the next block, or fails; then nothing changed, unless the last free block went into an indirect block |
| Inodes.Inode.ReadOneBlock | src/inode.c:288-311 | one turn of the read loop: the bytes from a position on, as far as its block goes |
| Inodes.Inode.ReadData | src/inode.c:275-314 | exactly the requested slice; a read of nothing succeeds exactly inside the mapped blocks |
| Inodes.Inode.WriteData | src/inode.c:316-354 | how it ends, exactly and on every volume; on success the bytes are overlaid and all else is kept; on failure it is rolled back |
| Inodes.Inode.UndoWrite | src/inode.c:330-336 | old size, mapping and freemap are back, and every block that was taken and given back is full of zeroes; the indirect block differs only in the case of the last free block |
| Inodes.Inode.Truncate | src/inode.c:356-398 | keeps the first blocks, zeroes and frees the others, drops the indirect block at four or fewer; when it violates its assertion |
| Inodes.Inode.CheckInode | src/inode.c:400-432 | marks exactly the blocks the inode owns, lists exactly those whose checksum is not the one in the table, and counts as many blocks as are mapped |
| Inodes.Inode.Sync | src/inode.c:206-222 | writes dinode and changed indirect block; violates its assertion exactly when nothing was changed |
| Inodes.WriteEnds | src/inode.c:324-354 | when the loop is through, the contents are the old ones overlaid with the bytes |
| Inodes.UndoneByCut | src/inode.c:330-336 | cutting back to the old size restores the mapping, and the bytes before the start |
| Inodes.StopArithmetic | src/inode.c:330-336 | where a write stops follows from size, indirect block, last block and free blocks |
| Inodes.LacksSlotWhen | src/csum.c:53-62 | a write violates the assertion on checksum slots exactly when one of its new blocks lies behind those with a slot and is still free |
| World.AfterWrite | src/inode.c:316-354 | a finished write leaves a sound file if and only if it wrote something or started inside the mapped blocks |
| World.AfterTruncate | src/inode.c:356-398 | the contents are the first `size` bytes, and only this file's blocks changed |
| World.StepOne | src/super.c:230-256 | an operation on one inode keeps the invariant, and every other file keeps its bytes |
| World.StepCreate | src/inode.c:245-260 | a new inode is an empty file |
| World.StepRemove | src/inode.c:262-273 | an emptied inode that is given up disappears, and nothing else does |
| Conservation.BlocksConserved | src/super.c:171-228 | the allocated blocks are as many as all live inodes hold together |
| Conservation.HeldWhen | src/inode.c:116-162 | an inode holds the blocks its size needs and one more exactly when it has more than four or was left with one |
| Conservation.InodesConserved | src/super.c:190-206 | the allocated inode numbers are as many as there are files |
| Dirents.ParseLog | src/dir.c:15-46 | the records of a directory are read back from its bytes, ending exactly at the size |
| Dirents.OverlaySlot | src/dir.c:75-96 | writing a record of the same length over another replaces just that one |
| Dirents.AddInserts | src/dir.c:98-137 | adding a name inserts it into the map of names; the log grows only when no tombstone has its length |
| Dirents.TombstoneDeletes | src/dir.c:173-211 | making a tombstone removes the name from the map |
| Dirents.FindNone | src/dir.c:309-323 | a name is not found exactly when no live record has it |
| DirOps.NextDirent | src/dir.c:15-46 | reads the next record of the log and steps over it |
| DirOps.DirNameToInodeNr | src/dir.c:309-323 | the inode number of the name, or ENOENT |
| DirOps.FindDirent | src/dir.c:48-73 | the first record with an inode number |
| DirOps.WriteDirent | src/dir.c:75-96 | one record is written in place or at the end, or the directory is as it was |
| DirOps.AddDirent | src/dir.c:98-137 | how it ends, exactly, and the log it leaves |
| Tree.CreateOk | src/dir.c:232-277 | a new child keeps the tree |
| Tree.RemoveOk | src/dir.c:173-211 | removing an empty child keeps the tree |
| Tree.DotDotIsParent | src/dir.c:279-302 | `..` names the parent and is one step nearer to the root, so following it comes to an end |
| Tree.NamedOnce | src/dir.c:48-73 | of all records of all directories exactly one names an inode as a child, and none names the root |
| Tree.RootAboveAll | src/super.c:230-256 | everything can be reached from the root |
| Tree.PathRoundTrip | src/dir.c:279-323 | resolving the path of an inode, name by name from the root, leads back to it |
| Table.InodeTable.Find | src/inode.c:40-51 | the in-memory inode of a number, whatever bucket it hashes to |
| Table.InodeTable.Insert | src/inode.c:53-56 | one inode more, and no number has two |
| Table.InodeTable.Remove | src/inode.c:58-58 | one inode less |
| Table.InodeTable.IsEmpty | src/inode.c:31-38 | all buckets are empty exactly when no inode is in memory |
| Holding.UseAll | src/inode.c:174-232 | after any gets and puts an inode is in memory exactly while more gets than puts named it, with that count |
| Holding.EmptyWhen | src/inode.c:31-38 | the table is empty exactly when every get was matched by a put |
| Hlist.Head.AddHead | include/list.h:253-259 | the node comes first, and all pointers forth and back fit |
| Hlist.Head.FindOwner | include/list.h:299-306 | the walk answers the first inode of the list with the number |
| Hlist.Del | include/list.h:279-285 | the node is gone from the list it was in, found through its back pointer alone |
| Hlist.LinkedTable.Find | src/inode.c:40-51 | over linked lists the same inode is found as over sequences |
| Hlist.LinkedTable.Insert | src/inode.c:53-56 | one list grows at its head as its sequence does, and the other 255 stay as they were |
| Hlist.LinkedTable.Remove | src/inode.c:58-58 | unlinking through the back pointer alone takes the inode out of its own list, and the other 255 stay as they were |
| Hlist.LinkedTable.IsEmpty | src/inode.c:31-38 | all heads are empty exactly when no inode is in memory |
| Contexts.Context.GetInode | src/inode.c:174-204 | the one in-memory inode of a number, counted once more, or read from its inode block |
| Contexts.Context.PutInode | src/inode.c:224-232 | counted once less, and gone at zero; violates its assertion exactly when it has unsaved changes |
| Contexts.Context.SyncInode | src/inode.c:206-222 | saved, and the files are as they were |
| Contexts.Context.CreateInode | src/inode.c:245-260 | the least free number becomes an empty inode |
| Contexts.Context.RemoveInode | src/inode.c:262-273 | the inode and its blocks are given back, the blocks full of zeroes, unless it was left with an indirect block it does not need; what happens when somebody else still holds it |
| Contexts.Context.DataSaved | src/inode.c:206-222 | a finished and saved operation changes just one file |
| Commands.CmdCd | src/dir.c:329-363 | how it ends; the current directory is the one named, and the root for `/` |
| Commands.RemoveDirentAllowed | src/dir.c:139-171 | a directory may lose its record unless some live record of it has a name other than `.` and `..` |
| Commands.CmdRm | src/dir.c:503-525 | how it ends; the name and its inode are gone, what it held is zero, and nothing else changed; the current directory is never removed |
| Commands.CreateEmptyDir | src/dir.c:213-230 | `.` and `..`; the second record never fails |
| Commands.CreateFileOrDir | src/dir.c:232-277 | how it ends; the new inode with its name, or all as before, with the current directory unsaved exactly when its record could not be written |
| Commands.CmdOwrite | src/file.c:245-282 | how it ends, exactly, for every offset that does not become a negative `int`; the file keeps its bytes up to the offset, then has the content and ends |
| Commands.EndOf | src/file.c:268-275 | the end of the write, computed as a `long`, becomes the `int` that start and length add up to |
| Commands.Pwd | src/dir.c:279-307 | ends, prints the names from the root down, and leaves all counts as they were |
| FileOps.Overwrite | src/file.c:245-282 | write then truncate: the old bytes up to the offset, then the content and nothing else, for files of every size; or the exact reason why not |
| Check.Checkfs | src/super.c:230-256 | marks exactly the inodes below and their blocks, each once, and lists exactly the blocks with a wrong checksum |
| Check.CmdCheckfs | src/super.c:258-285 | of a file system that is in order but, perhaps, for checksums it lists exactly the blocks of files whose checksum is wrong, and finds both freemaps right; it violates an assertion exactly when the current directory has unsaved changes |
| Check.NothingWrong | src/super.c:258-285 | between two commands of a session nothing is listed |
| Check.RebuiltMaps | src/super.c:269-280 | what was visited from the root is what the freemaps say |
| Mounting.FlushSuper | src/super.c:117-141 | both freemaps are on the device, and the super block tells where the regions start; refused while an inode is in memory |
| Mounting.SuperTells | src/super.c:8-24 | which word of the super block tells the start of which region |
| Mounting.ReloadedBits | src/super.c:51-103 | freemaps that were written come back |
| Mounting.ReloadedTable | src/super.c:117-141 | the checksum table comes back if and only if every block of it had been saved |
| Mounting.RemountedWhen | src/super.c:51-141 | what is found is consistent exactly when the checksums of all blocks of files were on the device, and then has the same files |
| Mounting.Mount | src/super.c:51-107 | the world is that of the device, with the root as the current directory |
| Mounting.Restart | src/testfs.c:303-310 | leaving and starting again finds a file system in order, with the same files, exactly when the checksums of all blocks of files were saved |
| Mounting.CmdMkfs | src/super.c:287-318 | an empty root directory and nothing else; all other blocks and numbers are free |
| Shell.Execute | src/testfs.c:175-213 | what each command answers, and which assertion it violates; what it does to the files and the current directory; which commands end a session |
| Shell.Session | src/testfs.c:276-311 | after any commands from `mkfs` on the invariant holds, every command answered and did what is told of it, and the session stopped early exactly at a command that ends one |
| Shell.SessionThenCheck | src/super.c:258-285 | `checkfs` after any session comes back and finds nothing wrong exactly when the current directory has no unsaved changes, and so whenever all commands succeeded |
| Shell.DirtyWhen | src/dir.c:232-277 | the current directory has unsaved changes exactly when a command failed while adding its record and none after it saved or left the directory |
| Shell.StaysClean | src/super.c:258-285 | after commands that all succeeded nothing is unsaved |
| Shell.SavedIsSaved | src/csum.c:53-62 | as long as only the ordinary path wrote, the checksum table on the device is the one in memory |
| Shell.WrongIsLost | src/super.c:117-141 | after a restart the blocks with a wrong checksum are those whose checksum was not on the device |
| Shell.RestartThenCheck | src/super.c:258-285 | `checkfs` after a restart comes back, finds the freemaps right, and lists exactly the blocks of files whose checksums were lost; none exactly when the file system comes back undamaged |
| Shell.CmdPwd | src/dir.c:365-373 | the printed path tells its names exactly when none is empty or holds a slash, and then what is read back from it resolves to the current directory |
| Effects.CdKnown | src/dir.c:329-363 | `cd /` goes to the root, `cd ..` to the parent, `cd .` nowhere, from wherever nothing is unsaved |
| Effects.CdNamed | src/dir.c:329-363 | any other name leads into the directory that its record names; a plain file, and a name without a record, are refused |
| Effects.RmAnswers | src/dir.c:139-230 | what `rm` answers, told from the records: a directory is refused exactly when some live record of it has a name other than `.` and `..` |
| Effects.RmDoes | src/dir.c:503-525 | the record becomes a tombstone, its inode goes, no record has the name any more, all else is as it was |
| Effects.CreateDoes | src/dir.c:232-277 | `touch` and `mkdir` take the least free number for an empty file or a directory of two records, and put a record into the first tombstone of its length or at the end; all else is as it was |
| Effects.CreateAnswers | src/dir.c:232-277 | what `touch` and `mkdir` answer, told from the records, the numbers in use and the free blocks |
| Effects.MkdirThenRm | src/dir.c:232-277 | a directory that was just made can be removed, and then the same files are there as before, with their bytes, but for that of the directory it was in |
| Effects.OwriteDoes | src/file.c:245-282 | after `owrite` the file has its old bytes up to the offset, then the content, and ends, however large it was; a failed one keeps the size; no other file changes |
| Effects.OwriteAnswers | src/file.c:245-282 | what `owrite` answers, told from the records, the file and the free blocks |
| Effects.ReplaceDoes | src/file.c:125-161 | after `write` the file has the content and nothing else; no other file changes |
| Effects.ReplaceAnswers | src/file.c:125-161 | what `write` answers, told from the records, the file and the free blocks |
| Effects.WriteEndsWhen | src/inode.c:316-354 | a write goes through exactly when all blocks it takes are free and have a slot and the range fits a file; when it fails and when it violates the assertion on slots |
| Effects.AlternateEndsWhen | src/inode_alternate_sync.c:38-107 | the same of the alternate path, where only data blocks need a slot |
| Effects.ByteOnDevice | src/inode.c:98-114 | in which block of the device, and where in it, each byte of a file is |
| Effects.WroteBytesAt | src/inode.c:316-354 | after a write each byte of the range is the one written, and every other the one that was there |
| Effects.RolledBackBytesAt | src/inode.c:330-336 | after a failed write each byte before its start is the one that was there, and each behind is the new one |
| Effects.FreedBlocksAreZero | src/super.c:222-228 | a block that was allocated at one time of a session and is free at a later one is full of zeroes |
| Effects.FreeBlocksStayZero | src/super.c:222-228 | on a device that held zeroes every free block does, after any commands |
| Effects.StartIs | src/super.c:287-318 | after `mkfs` the root names itself twice and nothing else, one block and one number are taken |
| Effects.BenchDoes | src/bench_e2e.c:40-96 | both benchmark sequences put the content over the front of every file that is named and leave all other files alone |
| Effects.FilesStay | src/testfs.c:276-311 | a command that fails changes no file, unless it is an `owrite`, and neither do `cd`, `pwd`, `checkfs` and a restart |
| Effects.StaysTree | src/testfs.c:276-311 | every command that does not end the session leaves a tree |
| Effects.AlwaysTree | src/testfs.c:276-311 | the directories are a tree at every time of a session, so that all this holds then |
| Paths.SplitPathText | src/dir.c:279-307 | splitting a printed path at its slashes gives the names back exactly when none is empty or holds a slash |
| Paths.PathOfNew | src/dir.c:232-307 | a new child's path is that of its directory and its name, and all other paths stay |
| Paths.SamePath | src/dir.c:527-532 | after `mkdir a/b`, `mkdir a` and `mkdir b` in `a` two directories print the same path |
| Alternate.LogToPhyIs | src/inode_alternate_common.c:25-42 | a cached indirect block that is right answers as the block map does |
| Alternate.EnsureLoadedIs | src/inode_alternate_common.c:4-23 | loading changes nothing but the cache |
| Alternate.AllocateIs | src/inode_alternate_common.c:44-75 | one more block is mapped, data block first; or there were too few free blocks |
| Alternate.WriteBlockIs | src/inode_alternate_sync.c:11-26 | one block is written with its checksum, as the loop of the ordinary path would |
| Alternate.WriteRunIs | src/inode_alternate_sync.c:74-87 | the whole blocks of the body are overlaid, and how far it comes |
| Alternate.BodyAndTail | src/inode_alternate_sync.c:43-56 | from a block boundary on, body and tail are exactly the blocks of the range |
| Alternate.WriteIs | src/inode_alternate_sync.c:38-107 | has the effect the ordinary write promises, and says how it ends, exactly |
| Alternate.PathsAgree | src/inode_alternate_sync.c:38-107 | it succeeds in exactly the cases in which `testfs_write_data` does, and in one more, which is told exactly |
| Alternate.WriteClean | src/inode_alternate_sync.c:38-107 | clean checksum blocks stay saved; the cached indirect block changes only when the file grows to the end of the write |
| Alternate.RoomForNext | src/inode_alternate_async.c:74-93 | the next block is none of those in flight, of this file or of others |
| Alternate.SyncedIs | src/inode.c:206-222 | saving an inode makes a cached indirect block equal to the one on the device, and it stays right |
| Alternate.TruncateBreaks | src/inode.c:356-398 | an ordinary truncation leaves a cached indirect block wrong exactly when some but not all of the blocks it maps are given up |
| Alternate.GrowBreaks | src/inode.c:145-161 | an ordinary allocation leaves a cached indirect block wrong whenever the new block belongs into it, but for one coincidence |
| Alternate.NotGrownBreaks | src/inode.c:145-161 | when that allocation fails, the cached block is wrong exactly when an indirect block was gained and the cached one is not empty |
| Cache.TruncateCached | src/inode.c:356-398 | the method meets that condition |
| Cache.AllocateCached | src/inode.c:116-162 | the method meets these conditions |
| Cache.SavedOk | src/inode.c:206-222 | saving some or all inodes of a batch keeps every cached indirect block right and all files as they were |
| Cache.FailedWrite | src/inode_alternate_common.c:44-75 | an alternate write that runs out of space spoils no cached indirect block |
| Cache.Run | src/inode_alternate_common.c:4-75 | over any run of alternate writes, single saves and bulk saves every cached indirect block is right, also after running out of space |
| Cache.RunFiles | src/inode_alternate_sync.c:38-159 | a run overlays the files with what was written, in this order, and saving changes no file |
| Cache.RunOps | src/inode_alternate_sync.c:38-159 | the methods, one after another on inodes in memory, take the very steps of the run |
| AltPath.LogToPhy | src/inode_alternate_common.c:25-42 | the method computes the function |
| AltPath.AllocateBlockAlternate | src/inode_alternate_common.c:44-75 | the method computes the function, with requests of others in flight |
| AltPath.WriteDataAlternate | src/inode_alternate_sync.c:38-107 | from a block boundary on, the synchronous write reaches the state that `Alternate.Write` tells, with one write request for each block of the range |
| AltPath.WriteDataAlternateAsync | src/inode_alternate_async.c:38-112 | the asynchronous write reaches the very same state with the same requests, and only its own blocks are in flight |
| AltPath.RequestsDiffer | src/inode_alternate_sync.c:85-91 | no two of these requests are for the same block |
| WriteCommand.Replace | src/file.c:144-156 | asynchronous write, wait, truncate, save: the file has the content and is saved |
| WriteCommand.CmdWrite | src/file.c:125-161 | how it ends, exactly; the named file has the content, and the checksum table on the device is left alone |
| Bulk.TablesFirst | src/inode_alternate_sync.c:109-134 | writing all indirect blocks first makes no difference |
| Bulk.AnyOrder | src/inode_alternate_sync.c:109-159 | saving different inodes in any other order gives the same device |
| Bulk.SortByBlock | src/inode_alternate_common.c:77-80 | the inodes are clustered by inode block and are the same inodes |
| Bulk.FlushDInodes | src/inode_alternate_sync.c:128-158 | the device was asked for one read and one write of every inode block that holds one of them, and nothing else |
| Bulk.BulkSync | src/inode_alternate_sync.c:109-159 | the device is as if each inode had been saved by itself; one write for each changed indirect block, one read and one write for each inode block |
| Bulk.TablesOnce | src/inode_alternate_sync.c:109-134 | the changed indirect blocks are different blocks, so that each is written once |
| BulkAsync.BulkSyncAsync | src/inode_alternate_async.c:114-170 | the device settles to the same, by the same requests, with only these blocks in flight |
| BulkAsync.FlushBlockFreemapAsync | src/super.c:329-342 | the freemap blocks are in flight |
| BulkAsync.FlushCsumAsync | src/csum.c:104-122 | the dirty table blocks are in flight, each written once, and no others |
| Batch.BatchStep | src/bench_e2e.c:55-57 | writing one of several cached inodes keeps the others' cached indirect blocks right and their files as they were |
| Batch.WriteFirstOk | src/bench_e2e.c:55-57 | writing them one after another overlays exactly these files |
| Batch.EnoughBlocks | src/bench_e2e.c:55-57 | with 133 free blocks that have a checksum slot for each file no write runs out |
| Batch.WriteFirstWhen | src/bench_e2e.c:55-57 | the writes go through exactly when each file finds the blocks it needs in the room that those before it leave, told from the sizes before |
| Batch.CommittedWorld | src/bench_e2e.c:58-60 | what was committed is consistent, on the device, and holds the files of the batch |
| Bench.BenchmarkSyncWrites | src/bench_e2e.c:40-64 | all files overlaid with the content and saved; which volume and dinodes that leaves, exactly |
| Bench.BenchedSame | src/bench_e2e.c:40-96 | two runs that meet this contract from the same world end in the same world |
| BenchAsync.FlightNext | src/bench_e2e.c:83-88 | what is in flight are data blocks of the files written so far |
| BenchAsync.CommitAsync | src/bench_e2e.c:89-92 | after the one wait the device is the one the synchronous commit leaves |
| BenchAsync.BenchmarkAsyncWrites | src/bench_e2e.c:66-96 | the contract of the synchronous sequence, for every order of completion |
| BenchAsync.MountAgain | src/super.c:51-107 | with freemaps and checksum table on the device, a mount finds what is in memory without any unmounting, but for unsaved changes of the current directory |
| BenchAsync.BenchmarkAndMount | src/bench_e2e.c:40-96 | a mount right after either sequence finds the same freemaps, checksum table, dinodes and files; when the writes fit is told from the sizes before |
| BenchAsync.BenchmarkAndRestart | src/bench_e2e.c:66-96 | after the asynchronous sequence leaving and starting again brings all files back with the content; when the writes do not fit, told from the sizes before, and when leaving violates an assertion, is told apart |
| Limits.EmptyWriteMapsABlock | src/inode.c:324-350 | writing nothing to an empty file maps a block its size does not need |
| Limits.EmptyWriteGoes | src/inode.c:324-350 | that write goes through whenever a block with a checksum slot is free |
| Limits.EmptyWriteThere | src/inode.c:324-350 | so it does in a consistent file system with a directory tree |
| Limits.LastBlockLeaks | src/inode.c:145-161 | a failed append with one free block leaves an indirect block, and the next shortening write violates an assertion |
| Limits.LeakGoes | src/inode.c:145-161 | that append does leave this |
| Limits.LeakingWorld | src/inode.c:145-161 | in a file system that the shell can stand in `owrite` fails like that, and neither `rm` nor a shorter `owrite` of that file comes back any more |
| Limits.AppendToFull | src/inode.c:145-161 | how that append ends on either path, for any number of free blocks with and without a slot |
| Limits.PathsDiffer | src/inode_alternate_common.c:44-62 | in a file system that the shell can stand in, with two free blocks, one of them with a slot, `owrite` violates an assertion and `write` of the same content succeeds |
| Limits.UndoViolates | src/inode.c:330-336 | undoing a write violates an assertion exactly when it ran out with at most four blocks mapped, made the file longer, and an indirect block is there |
| Limits.UndoViolatedWorld | src/inode.c:330-336 | in a file system that the shell can stand in `owrite` does so |
| Limits.TooMuchToReplace | src/file.c:144-156 | `write` saves an unchanged inode, and violates the assertion on that, exactly when its content fits no file, or is longer than the mapped blocks while none is free |
| Limits.ChecksumsAreLost | src/super.c:117-141 | a restart after `write` brings back the checksum table from before it, which is the right one exactly when nothing changed |
| Limits.LostChecksumDamages | src/super.c:117-141 | what is found then is consistent exactly when every block of every file has the checksum that its place had before |
| Limits.SplitFits | src/inode_alternate_sync.c:46-106 | head, body and tail of an alternate write put every byte in its place, and nothing elsewhere, exactly from the start or the middle of a block on |
| Crowded.FirstFile | src/inode.c:145-161 | almost full file systems: consistent, a directory tree, with as many blocks free as told |
| Crowded.WorldThere | src/super.c:51-107 | these are what a mount finds on a device with these blocks |
| Mishaps.MountCrowded | src/super.c:51-107 | the shell starts on such a device, and all is in order |
| Mishaps.BothPaths | src/file.c:125-282 | there the same content to the same file ends `owrite` in an assertion, and goes through with `write` |
| Mishaps.UndoFails | src/inode.c:330-336 | there an `owrite` of more than 2048 bytes to an empty file violates an assertion while undoing |
| Mishaps.FirstTouch | src/dir.c:232-277 | the first `touch` in a new file system fails exactly for names that do not fit behind the two leading records |
| Mishaps.TouchTooLong | src/dir.c:232-277 | `mkfs`, that `touch` and `checkfs` end in a violated assertion |
| Mishaps.LosesNewCsum | src/file.c:125-161 | a restart after a `write` of a block whose checksum is nowhere in the table finds a damaged file system |
| Mishaps.LosingSession | src/testfs.c:276-311 | `mkfs`, `touch`, `write` and a restart: every command succeeds, what is found is not consistent, and `checkfs` lists the blocks whose checksums were lost |

## Left out

* Commands that print or copy: `ls`, `lsr`, `cat`, `catr`, `stat`, `import`, `export`, `help`; reading lines, tokens and
  arguments. Several names in one `touch` are a sequence of single ones.
* The sizes and starts of the regions are constants, not fields read from block 0, and the device has exactly the 8384
  blocks that the freemap covers. Data blocks that `mkfs` leaves behind keep whatever they held.
* SPDK, buffers for device access, channels, threads and memory fences: a request is moved between buffer and device in one
  step and counted in another, and never fails, as the completion functions ignore errors too.
* `src/tx.c` checks only that start and commit come in pairs; crashes in between are not modelled.
* Running out of memory; pointer casts; sums of sizes beyond 2^31, which a file of at most 132 blocks cannot reach.
* Modification times, and the benchmarks and experiments that measure.
- Table.InodeTable.Insert: the buckets of the table that contexts use are sequences; `Hlist.LinkedTable` refines it over linked lists, step by step and with the same contracts, but a node points to its inode instead of lying inside it.
- Bulk.SortByBlock: the library's `qsort` is replaced by insertion; callers use only that the result is sorted and holds the same inodes.
- Alternate.WriteIs: only from block boundaries inside the file on, as every caller does; elsewhere the head of the split takes its bytes from the wrong place (src/inode_alternate_sync.c:46-50, 85).
- AltPath.WriteDataAlternate: the same; a start inside a block, and so the head, is modelled only in how the bytes are split (`Limits.SplitFits`), and a start past the end of the file not at all.
- AltPath.WriteDataAlternateAsync: the same.
- Commands.CmdOwrite: offsets whose low 32 bits are a negative `int`, for which the code has no check and its pointer arithmetic no meaning.
- WriteCommand.CmdWrite: when the alternate path ran out of space, only that the file system is inconsistent then; the code has no way back.
- Bench.BenchmarkSyncWrites: stops at the first write that runs out of space, where the code goes on with blocks mapped behind the size; nothing is promised then. The names are those of different plain files.
- BenchAsync.BenchmarkAsyncWrites: the same, and the shared future is made after the inodes are read instead of before, when nothing uses it yet.
- Shell.Session: stops after a `write` that ran out of space and after a restart that lost the checksum of a block of a file, when there is no consistent file system to go on with. The benchmark sequences are not among its commands; they are proved apart for any context between two commands.
