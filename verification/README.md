# KabanOS in Dafny

A Dafny model of the core of KabanOS, a small operating system for the i686 written in C, with
proofs of what its parts are for. Five parts are modelled, each down to the words, bits and
pointers the C code works on, and each up to a specification in which those details are gone.

| part | source | modules | main results |
|---|---|---|---|
| MyFS, the file system | `kernel/src/fs/myfs/myfs.c` | `Bitmap`, `Bytes`, `Fs*` | `FsRun.Run`, `FsLaws.WrittenStays`, `FsCache.InodeCache.Run`, `FsMount.Remount` |
| frames, page tables, copy-on-write fork | `kernel/src/arch/i686/hal_vmm.c`, `kernel/src/mm/` | `Pmm`, `PteBits`, `PageTables`, `Vmm*` | `VmmRun.Run`, `VmmRun.Isolated`, `VmmFork.Clone` |
| the kernel heap | `kernel/src/mm/kmalloc.c` | `Slab`, `Heap*`, `Kmalloc` | `HeapRun.Run`, `HeapRun.FreeThenAlloc`, `HeapRun.SlabServes` |
| the scheduler and the sleep queue | `kernel/src/sched/` | `Sched*` | `SchedRun.Run`, `SchedFair.NoStarvation`, `SchedBurst.BurstDecides`, `SchedSleep.SleepsAsLong` |
| the boot path: FAT12 reader, multiboot2 writer and parser | `bootloader/stage2/src/`, `kernel/src/kernel_boot_info.c` | `Fat`, `Multiboot`, `MultibootParse` | `Fat.File.ReadAll`, `Fat.StoredInOrder`, `MultibootParse.Boot` |

How the parts are built:

- State the C code updates in place is a class (`Volume`, `InodeCache`, `FrameAllocator`,
  `Machine`, `Pages`, `Allocator`, `Scheduler`, `File`); its methods have the loops and branches
  of the C functions. Memory, disks, bitmaps and queues are sequences and maps of words, bytes
  and links, so that sharing between blocks, tables and lists is visible.
- Ghost state names what the C code keeps only implicitly: which inode slot owns a disk block,
  which frames are tables, which block owns a heap page, which thread sits in which queue.
- Each subsystem has one invariant (`FsOk`, `Inv`, `Settled`, `SchedState.Inv`), kept by every
  operation, and value-level lemmas that carry the proofs; the methods only connect the code
  to them.
- The whole-run theorems say that any sequence of operations behaves as the specification:
  files are byte strings and directories are finite maps; every process has private memory and all
  see one kernel; heap blocks are separate arrays; no thread is lost, none is dispatched at a worse
  priority than before, and none starves. Each event of a run is tied to its effect, and where a
  request can fail the run says exactly when, from the state before it.
- Running out of space is counted, not guessed: `FsSpace` gives the blocks and tables a file still
  needs, `VmmMap.MapRange` the tables a range lacks, `HeapPages.Pages.AllocPages` the pages and frames of
  an allocation, and each operation succeeds exactly if they are there. What is given back is counted
  as well: every step of `VmmRun.Run` and `HeapRun.Run` says which frames and pages it takes and frees.
- `Common` holds the few definitions that all parts share.
- Bitmaps are bytes and page table entries are words; `Bitmap.SetView` and `PteBits.EncodeDecode`
  connect them to the bits and records that the proofs use. What a page allows is what both levels
  of its tables allow, as the processor forms it.
- Besides the run theorems there are laws that do not use the definitions of the specification: what
  was written is read, a sleep lasts so many ticks, a slab holds as many objects as fit. Formats that
  others read are tied to their offsets (`FsMount.StructFields`, `Multiboot.TagFormat`, `Fat.Tiles`).

Integers are unbounded in Dafny. Where the C code can wrap (32-bit addresses and sizes, 16-bit
reference counts, 32-bit ticks and tick differences) the model wraps too, or a precondition names
the range.

## Where the code does not do what is promised

Each of these is stated with the exact condition under which the promise does hold.

- `Vmm.CowStepSound`: a copy-on-write fault is sound exactly when the frame can be copied; the
  handler does not look at the result of the frame allocation, and the 16-bit count wraps.
- `VmmFork.Clone`: a fork does not look at the frame allocations for its tables either, and raises the
  same counts. It leaves a sound machine exactly if there is a frame for each table of the parent and
  no count of a frame it maps is at the limit; otherwise nothing that the frames could be taken to be
  used for makes it sound again (`VmmFork.MissesBroken`, `VmmFork.ForkWraps`). `VmmRun.Run` tests this
  before each fork.
- `VmmGrow.RollbackRestores`: `va_alloc_region` is documented to fail on a mapped page; it maps
  over it (`VmmGrow.MappedOver`), and a rollback removes the page. A failed call is undone exactly if
  no page within reach of the free frames was mapped.
- `VmmGrow.UserAsAsked`: a region asked for user programs can be used by them exactly if none of the
  tables it falls into was made for the kernel only; the directory entry of a table that is there is
  left as it is.
- `VmmMap.MapRange`, `VmmUnmap.UnmapRange`: a range that ends at the top of the address space
  does nothing, because its end address wraps to 0.
- `Pmm.RangeExact`: rounding up wraps in the last page of the address space; releasing a range is
  right exactly if it does not start there, reserving exactly if it does not end there.
- `Pmm.IndexAgrees`: reference counts and bitmap use different indices unless memory starts at 0.
- `FsCache.FlushComplete`: unmounting writes only the first inode of each hash chain. The table on disk
  holds every cached inode exactly if each was dirty and first in its chain, or agreed with its slot
  (`FsCache.FlushMisses`). `FsMount.Remount` says what a mount then finds.
- `FsCache.InodeCache.Iput`: a changed inode whose dirty flag was not set is lost with its last
  reference (`FsCache.PutLoses`); a failing `myfs_blocks_alloc` leaves such an inode behind.
- `FsFormat.PaddingBits`: the spare bits of the last bitmap byte can be allocated unless the block
  count is a multiple of eight.
- `FsFormat.LayoutHolds`: the block size macro has no parentheses, so the metadata is larger than
  meant, and a data area is left exactly from 61 blocks on.
- `FsRecords.LongNames`: names of 32 characters and more are stored truncated, then not found.
- `FsTree.Rename`: the old name is removed first, so a rename loses the entry unless the new place is
  a directory and loses a record itself, or has room for one with the blocks the old place gives up.
  `FsExamples.RenameLoses` is a volume on which it does.
- `FsFile.ReadClamped`: a read whose end wraps to an offset inside the file is not clipped.
- `FsFile.Truncate`: growing a file this way keeps the volume valid exactly when the blocks the
  file already has cover the new size (`FsExamples.TruncateGrows`).
- `HeapPages.SeamRefuses`: a free run that spans the search hint is not found.
- `Kmalloc.LargeEnough`: sizes within 4111 bytes of 4 GiB overflow with header and rounding. All but
  the last 15 of them ask for no page and are refused; the last 15 get one page, which is too small.
- `Sched.AgingAsMeant`: the aging threshold macro has no parentheses and is 0, so every waiting
  thread is promoted at every aging pass (`Sched.AgingTooSoon`).
- `SchedRun.SleepAsMeant`: for the same reason `sys_sleep` waits one tick for every 1000 seconds,
  exactly while the milliseconds fit 32 bits; only a sleep of 0 seconds is right.
- `SchedRun.NapAsMeant`: `sys_nanosleep` is right exactly if its 64-bit product does not overflow.
- `SchedSleep.SleepLength`: the wake-up tick is cut to 32 bits and compared with a 32-bit tick. A sleep
  lasts as long as asked exactly if it ends before the tick wraps, or the wrap is at the very next
  tick and at most one round is asked for, but not nothing. Otherwise it is cut short
  (`SchedSleep.SleepCut`) or lasts a round more (`SchedSleep.SleepStuck`).
- `SchedRun.IdleGivesWay`: the ticks of the idle task are never reset; after 2^31 of them it is not
  replaced at a tick any more, until the count wraps.
- `SchedOps.EnqueueTwice`: a thread that is queued while it is queued cuts off the threads behind it
  or closes its queue to a ring. `sys_exit` does that to a waiting parent if a second child exits
  before the parent has run; `SchedRun.Run` resumes stopped threads only.
- `MultibootParse.RoundTrip`: the parser needs the strings and modules to fit 5120 bytes
  (`MultibootParse.TooLong`).

## Model

| member | source | states |
|---|---|---|
| Bitmap.FindFirstEmpty | kernel/src/fs/myfs/myfs.c:133-148 | the scan that skips full bytes and starts inside one returns the least clear bit at or after the start, or -1 |
| Bitmap.FirstEmpty | kernel/src/fs/myfs/myfs.c:133-148 | on a bitmap whose bytes hold given bits, the scan returns the least clear one, or -1 exactly when all are set |
| Bitmap.SetView | kernel/src/fs/myfs/myfs.c:150-152 | setting a bit of a byte changes exactly that bit of the bitmap |
| Bitmap.ClearView | kernel/src/fs/myfs/myfs.c:154-156 | clearing a bit of a byte changes exactly that bit of the bitmap |
| Bitmap.BitOrder | kernel/src/fs/myfs/myfs.c:150-160 | a byte is the sum of its bits, the first bit counting 1 and the last 128 |
| Bytes.LowByteFirst | kernel/src/fs/myfs/myfs.c:47-94 | words are stored low byte first |
| Bytes.BlocksCover | kernel/src/fs/myfs/myfs.c:606-612 | the number of blocks for a length suffices, and one fewer would not |
| FsLayout.LbaGet | kernel/src/fs/myfs/myfs.c:47-94 | the branches of the lookup follow the path of the logical block through direct, single and double tables; a missing table gives 0 |
| FsLayout.PathIs | kernel/src/fs/myfs/myfs.c:47-94 | which blocks are direct, single or doubly indirect, and exactly which are beyond the largest file |
| FsLayout.PathInjective | kernel/src/fs/myfs/myfs.c:47-94 | two logical blocks never share a pointer slot |
| FsLayout.PathIdx | kernel/src/fs/myfs/myfs.c:47-94 | every pointer slot is the path of a logical block |
| FsLayout.Relink | kernel/src/fs/myfs/myfs.c:516-581 | changing one pointer to an unowned block keeps every block owned by at most one slot of one inode |
| FsSpace.FittedDouble | kernel/src/fs/myfs/myfs.c:530-581 | a block behind two tables that are not there: its number is stored exactly if the free blocks cover both, although the code makes them one after the other |
| FsSpace.MissingNext | kernel/src/fs/myfs/myfs.c:584-599 | the tables lacking for a range of blocks are those for its first part and those the next block still lacks after they were made |
| FsSpace.RoomUntouched | kernel/src/fs/myfs/myfs.c:584-599 | the room a file needs does not depend on other files |
| FsVolume.Volume.BlockLba | kernel/src/fs/myfs/myfs.c:47-94 | a block found lies in the data area and is owned by this logical block of this inode and nothing else |
| FsVolume.Volume.BitmapAlloc | kernel/src/fs/myfs/myfs.c:483-491 | takes the first free data block of the byte bitmap, which nothing owns; fails exactly when none is free, changing nothing |
| FsVolume.Volume.AllocZeroed | kernel/src/fs/myfs/myfs.c:494-502 | the same, and the new table has only null pointers, so no block map changes |
| FsVolume.Volume.MapBlock | kernel/src/fs/myfs/myfs.c:530-581 | points one logical block at a block and leaves every other block of every inode alone, making exactly the tables lacking; fails exactly past the largest file or when the free blocks do not cover them, and then no data pointer changed |
| FsVolume.Volume.ClearBit | kernel/src/fs/myfs/myfs.c:154-156 | a block enters or leaves the set of blocks in transit, and the bitmap stays in step with ownership |
| FsFile.BlockAppend | kernel/src/fs/myfs/myfs.c:584-599 | one round: one more block exactly if the free blocks cover it and the tables it lacks; no allocated block moves |
| FsFile.BlocksAlloc | kernel/src/fs/myfs/myfs.c:584-599 | exactly `count` more blocks, exactly if the free blocks cover them and the tables lacking; no file's allocated blocks move or change |
| FsFile.NodeWrite | kernel/src/fs/myfs/myfs.c:601-644 | success overlays exactly the data on the file's bytes, at any offset; it fails exactly if the blocks and tables up to the end of the data do not fit the free blocks, and then changes no visible byte; no other file changes either way |
| FsFile.SizeBound | kernel/src/fs/myfs/myfs.c:47-94 | no file is larger than its three levels of pointers can hold, so sizes never come near 4 GiB |
| FsFile.OverlaidIs | kernel/src/fs/myfs/myfs.c:601-644 | inside and at the end of a file the bytes after a write are determined entirely: prefix, data, rest |
| FsFile.NodeRead | kernel/src/fs/myfs/myfs.c:806-841 | returns exactly the bytes of the file from the offset, clipped at its end, across block boundaries (`FsFile.ReadBack` and `FsFile.ReadsJoin` say what such a read is) |
| FsFile.ReadBack | kernel/src/fs/myfs/myfs.c:806-841 | a read of the place and length of a write gives the data written |
| FsFile.ReadElsewhere | kernel/src/fs/myfs/myfs.c:806-841 | a read that does not meet the data gives what was there before the write |
| FsFile.ReadsJoin | kernel/src/fs/myfs/myfs.c:806-841 | a read followed by a read behind it give what one read of both lengths gives |
| FsFile.ReadClamped | kernel/src/fs/myfs/myfs.c:811-812 | the count is clipped to the file exactly if the 32-bit end of the read does not wrap to an offset within it |
| FsFile.Truncate | kernel/src/fs/myfs/myfs.c:685-707 | shrinking leaves the prefix and frees exactly the blocks past it; growing only records the size; the volume stays valid exactly when the blocks cover the new size |
| FsExamples.TruncateGrows | kernel/src/fs/myfs/myfs.c:685-707 | a sound volume that growing a file by truncation leaves invalid |
| FsFile.Shrink | kernel/src/fs/myfs/myfs.c:685-707 | the file is its prefix, exactly its surplus blocks are free again, no other file changed |
| FsInode.InodeFree | kernel/src/fs/myfs/myfs.c:650-683 | a bit of the data area is cleared exactly when the inode owned that block as data or table; every other file is unchanged; the inode is gone |
| FsInode.FreeData | kernel/src/fs/myfs/myfs.c:656-661 | the first loop releases exactly the inode's data blocks |
| FsInode.FreeTables | kernel/src/fs/myfs/myfs.c:663-679 | the rest releases exactly its pointer tables on top of them |
| FsInode.Released | kernel/src/fs/myfs/myfs.c:650-683 | the bitmap after the release in terms of what the inode owned, from the invariant alone |
| FsInode.InodeAlloc | kernel/src/fs/myfs/myfs.c:743-800 | the least free inode number, empty, with one block; every other file unchanged; fails exactly if no number or no data block is free, and then the whole volume is as before |
| FsNames.FindIsLookup | kernel/src/fs/myfs/myfs.c:843-849 | the linear search is the lookup in the finite map the entries stand for, in both directions |
| FsNames.AppendDir | kernel/src/fs/myfs/myfs.c:879-894 | appending a new name adds exactly it to the map |
| FsNames.WithoutDir | kernel/src/fs/myfs/myfs.c:896-926 | dropping an entry from unique entries removes exactly its name |
| FsNames.DirSize | kernel/src/fs/myfs/myfs.c:1010-1031 | with unique names the number of entries is the number of names |
| FsRecords.MadeRec | kernel/src/fs/myfs/myfs.c:879-894 | a stored record gives back the inode number and the name cut to 31 characters |
| FsRecords.RecFormat | kernel/include/fs/myfs/myfs.h:25-28 | a record is 32 bytes of name, padded with zeros, and the inode number |
| FsRecords.RecordsFlatten | kernel/src/fs/myfs/myfs.c:896-926 | cutting the bytes of a directory into records gives back the records written |
| FsRecords.FlattenRecords | kernel/src/fs/myfs/myfs.c:851-877 | and the other way round, with their number |
| FsRecords.AppendRecord | kernel/src/fs/myfs/myfs.c:879-894 | writing a record at the end of a directory appends one entry to its list |
| FsRecords.RemoveRecord | kernel/src/fs/myfs/myfs.c:896-926 | dropping a record drops one entry from the list, keeps the order, and removes one name from the map |
| FsRecords.LongNames | kernel/src/fs/myfs/myfs.c:879-894 | a name can be found after it was added exactly if it has at most 31 characters or was there; names stay unique exactly if the truncated name was not there |
| FsRecords.LongNameCollision | kernel/src/fs/myfs/myfs.c:879-894 | any two long names with the same first 31 characters get past the check and break uniqueness |
| FsDir.EntryIdxFind | kernel/src/fs/myfs/myfs.c:843-849 | the first entry with the name, or -1 |
| FsDir.Lookup | kernel/src/fs/myfs/myfs.c:851-877 | the inode number the directory maps the name to, or -1 |
| FsDir.DirAdd | kernel/src/fs/myfs/myfs.c:879-894 | exactly one record is appended, exactly if this is a directory without the name and with room for the record; otherwise no file changes |
| FsDir.AddedListing | kernel/src/fs/myfs/myfs.c:879-894 | a directory with the record appended lists exactly one name more and stays well formed |
| FsDir.RemoveAt | kernel/src/fs/myfs/myfs.c:917-918 | the shifting loop leaves the other records in order |
| FsDir.DirRm | kernel/src/fs/myfs/myfs.c:896-926 | the directory lists everything but the name, in the same order, and gives up exactly its surplus block; no other file changes; the return value says whether it was there |
| FsDir.RoomBack | kernel/src/fs/myfs/myfs.c:896-926 | what was cut off a file can be put back: its blocks are free and its tables are still there |
| FsTree.Unlink | kernel/src/fs/myfs/myfs.c:998-1008 | exactly the name is gone from the directory, exactly its inode is freed, and the directory has room for a record; every other file and directory is unchanged |
| FsTree.RemoveDir | kernel/src/fs/myfs/myfs.c:1010-1031 | the answer for every case; the name and the directory go exactly when it lists at most two names, otherwise nothing changes |
| FsTree.CountNames | kernel/src/fs/myfs/myfs.c:1024-1027 | the size test of removal counts the names listed |
| FsTree.Rename | kernel/src/fs/myfs/myfs.c:941-952 | keeps the entry exactly if the new place is a directory and loses a record itself or has room for one, counting what the old place gives up. Then every directory lists what it should, what the new name named is freed, all else unchanged; otherwise both names are gone; a missing old name changes nothing |
| FsTree.RoomAfterRemoval | kernel/src/fs/myfs/myfs.c:941-952 | the room after the old name was removed, from the state before |
| FsExamples.RenameLoses | kernel/src/fs/myfs/myfs.c:941-952 | a sound volume on which a rename loses its entry |
| FsTree.CreateFile | kernel/src/fs/myfs/myfs.c:954-972 | a fresh empty file with the least free number under a new name and nothing else, exactly if the name is new, an inode number and a block are free and the directory has room for the record; -EEXIST exactly if the name exists; otherwise no change |
| FsTree.CreateDir | kernel/src/fs/myfs/myfs.c:974-996 | a fresh directory that lists exactly `.` and `..`, under the same condition, or no change; the two writes whose results are ignored cannot fail |
| FsFormat.LayoutHolds | kernel/src/fs/myfs/myfs.c:299-329 | the metadata regions are disjoint, in order and large enough; there is a data area exactly from 61 blocks on |
| FsFormat.PaddingBits | kernel/src/fs/myfs/myfs.c:340-359 | the spare bits are safe exactly when the block count is a multiple of eight; otherwise a full volume hands out a block past its end |
| FsFormat.FormatMap | kernel/src/fs/myfs/myfs.c:355-357 | the loop sets exactly the bits of the metadata blocks in the bytes of the bitmap |
| FsFormat.SpaceLeft | kernel/src/fs/myfs/myfs.c:299-329 | a volume of at least 61 blocks with whole bitmap bytes has a data block and an inode number |
| FsFormat.MakeRoot | kernel/src/fs/myfs/myfs.c:359-364 | the root directory is made exactly if there is a data block and an inode number |
| FsFormat.Format | kernel/src/fs/myfs/myfs.c:298-376 | succeeds, with a valid volume whose only inode is a root directory that lists itself twice |
| FsTable.WriteSpanning | kernel/src/fs/myfs/myfs.c:206-235 | exactly the given bytes of the table change, over any number of blocks |
| FsTable.ReadSpanning | kernel/src/fs/myfs/myfs.c:206-235 | returns exactly those bytes |
| FsCache.InodeCache.CacheFind | kernel/src/fs/myfs/myfs.c:166-173 | the position of the inode in its chain, or -1 |
| FsCache.InodeCache.CacheAdd | kernel/src/fs/myfs/myfs.c:175-184 | one more cached inode, chains stay well formed |
| FsCache.InodeCache.CacheRemove | kernel/src/fs/myfs/myfs.c:186-200 | exactly that inode leaves, also if it was not there |
| FsCache.InodeCache.WriteSlot | kernel/src/fs/myfs/myfs.c:258-282 | exactly this inode's slot of the table on disk changes, also where slots cross blocks |
| FsCache.InodeCache.DiskInodeWrite | kernel/src/fs/myfs/myfs.c:258-282 | with the nested get and put: what is cached and what is on disk afterwards, in every case |
| FsCache.InodeCache.Iget | kernel/src/fs/myfs/myfs.c:448-465 | one reference more, loaded from disk if need be; no inode's value changes; fails exactly for free inodes |
| FsCache.InodeCache.Iput | kernel/src/fs/myfs/myfs.c:467-476 | the last put writes back and evicts; the inode's value survives exactly if references remain, it was dirty, or disk and cache agreed |
| FsCache.ChangeUnmarked | kernel/src/fs/myfs/myfs.c:258-282 | a get, a write-back and then a change lead to a cached inode that was changed but is not marked |
| FsCache.PutLoses | kernel/src/fs/myfs/myfs.c:467-476 | from there the last put drops the change |
| FsCache.InodeCache.Run | kernel/src/fs/myfs/myfs.c:448-476 | any legal sequence of gets, changes and puts reads what a plain map from inode number to value would give |
| FsCache.InodeCache.Flush | kernel/src/fs/myfs/myfs.c:284-292 | exactly the inodes that are dirty and first in their chain are written to their slots and marked clean; every other slot and entry, and every block outside the table, is as before |
| FsCache.FlushComplete | kernel/src/fs/myfs/myfs.c:284-292 | after a flush the disk holds every cached inode exactly if each was dirty and first in its chain or agreed with its slot before |
| FsCache.FlushRefines | kernel/src/fs/myfs/myfs.c:284-292 | a flush does not change what the cache stands for; while it stands for a plain map the condition is that each dirty inode was first in its chain or agreed with its slot |
| FsCache.AloneInChain | kernel/include/fs/myfs/myfs.h:66-67 | while all cached inodes have numbers below 256, each is alone in its chain |
| FsCache.FlushSavesSmall | kernel/src/fs/myfs/myfs.c:284-292 | then a flush saves every dirty inode |
| FsCache.FlushMisses | kernel/src/fs/myfs/myfs.c:284-292 | two dirty inodes in one chain: the second stays dirty and its slot keeps the old value |
| FsRun.DoWrite | kernel/src/fs/myfs/myfs.c:601-644 | a write is a step of the specification, with its success decided by the free blocks, and leaves all directories well formed |
| FsRun.DoRead | kernel/src/fs/myfs/myfs.c:806-841 | a read is a step of the specification |
| FsRun.DoMakeFile | kernel/src/fs/myfs/myfs.c:954-972 | creating a file is a step: one new entry and one new empty file exactly if there is room |
| FsRun.DoMakeDir | kernel/src/fs/myfs/myfs.c:974-996 | creating a directory is a step, exactly if there is room |
| FsRun.DoRemove | kernel/src/fs/myfs/myfs.c:998-1008 | unlinking is a step: one entry and one node less |
| FsRun.DoRemoveFolder | kernel/src/fs/myfs/myfs.c:1010-1031 | removing a directory is a step |
| FsRun.DoMove | kernel/src/fs/myfs/myfs.c:941-952 | renaming is a step: the entry moves, or is lost exactly where the new place has no room |
| FsRun.Run | kernel/src/fs/myfs/myfs.c:601-1031 | every run of reads, writes, lookups, creations, removals and renames, from any sound volume, is a run of a map from inode numbers to byte strings and finite maps; each outcome, also every failure, is determined by the state before; requests the code is not made for are exactly those refused |
| FsRun.Start | kernel/src/fs/myfs/myfs.c:298-376 | formatting succeeds and gives that specification's initial state |
| FsLaws.FileStays | kernel/src/fs/myfs/myfs.c:601-1031 | over any run, a file that exists throughout changes only by writes to it |
| FsLaws.WrittenStays | kernel/src/fs/myfs/myfs.c:601-841 | over any run, data written is what a later read of the place returns, as long as the file exists and is not written to |
| FsLaws.ReadInPieces | kernel/src/fs/myfs/myfs.c:806-841 | reading in two pieces gives what reading at once gives |
| FsLaws.MakeThenFind | kernel/src/fs/myfs/myfs.c:954-972 | a file just made is found under its name, with a number that was not in use, and is empty |
| FsLaws.RemoveThenFind | kernel/src/fs/myfs/myfs.c:998-1008 | a name just removed is not found |
| FsLaws.MoveThenFind | kernel/src/fs/myfs/myfs.c:941-952 | after a rename that kept the entry the new name leads where the old one led, and the old one nowhere |
| FsLaws.MakeDirThenRemove | kernel/src/fs/myfs/myfs.c:974-1031 | a directory just made can be removed again, and then the same inodes exist as before |
| FsLaws.FullFolderStays | kernel/src/fs/myfs/myfs.c:1010-1031 | a directory that lists something besides itself and its parent is not removed |
| FsMount.WriteBitmap | kernel/src/fs/myfs/myfs.c:112-127 | the bitmap is stored in its blocks, whatever its length, and no other block changes |
| FsMount.ReadBitmap | kernel/src/fs/myfs/myfs.c:96-110 | returns the bytes stored there |
| FsMount.Unmount | kernel/src/fs/myfs/myfs.c:423-442 | every slot of the inode table is what the flush makes it, both bitmaps are stored, and no block of the data area changes |
| FsMount.Mount | kernel/src/fs/myfs/myfs.c:382-421 | both bitmaps are those that were stored, and nothing is cached |
| FsMount.SameVolume | kernel/src/fs/myfs/myfs.c:382-442 | files, directories and the soundness of the volume depend on the inodes and the data area only |
| FsMount.Remount | kernel/src/fs/myfs/myfs.c:382-442 | unmounting and mounting again: an inode comes back as it was exactly if it was not cached, was dirty and first in its chain, or was on disk already; if all do, the volume is sound and has the same files and directories |
| FsMount.StructFields | kernel/include/fs/myfs/myfs.h:31-48 | which words of the 112 bytes of a slot are the direct pointers, the single and the double table, block count, size and mode |
| FsMount.FieldStored | kernel/include/fs/myfs/myfs.h:31-48 | storing one word of the structure changes the field kept there and no other |
| FsMount.SmallSurvives | kernel/src/fs/myfs/myfs.c:284-292 | with at most 256 inodes every one survives that is marked dirty when changed |
| FsMount.FormatFits | kernel/src/fs/myfs/myfs.c:298-329 | the layout of formatting has room for bitmaps and table, apart from each other and from the data area |
| Pmm.RangeFrames | kernel/src/mm/pmm.c:52-131 | a usable range that does not start in the last page releases exactly the frames inside it; a critical range that does not end there reserves exactly the frames it touches |
| Pmm.RangeWraps | kernel/src/mm/pmm.c:52-131 | what happens in the last page, where rounding up wraps |
| Pmm.RangeExact | kernel/src/mm/pmm.c:52-131 | releasing is right for all frames exactly if the range does not start in the last page, reserving exactly if it does not end there |
| Pmm.IndexAgrees | kernel/src/mm/pmm.c:26-50 | the two frame indices agree exactly when the managed range starts at 0 |
| Pmm.FrameAllocator.constructor | kernel/src/mm/pmm.c:133-152 | the free frames are exactly those of some usable range that are in no critical range and not frame 0; the counter of used frames is right |
| Pmm.FrameAllocator.RefInc | kernel/src/mm/pmm.c:26-31 | one reference more, modulo 2^16, for frames in range only |
| Pmm.FrameAllocator.MarkUsed | kernel/src/mm/pmm.c:38-44 | a free frame becomes used with one reference; a used one is unchanged; the counter stays right |
| Pmm.FrameAllocator.MarkFree | kernel/src/mm/pmm.c:74-85 | one reference less, free exactly when none is left; the counter stays right |
| Pmm.FrameAllocator.FrameAlloc | kernel/src/mm/pmm.c:87-95 | the lowest free frame above 0 with one reference; 0 exactly when there is none |
| Pmm.FrameAllocator.FrameFree | kernel/src/mm/pmm.c:97-109 | one reference less; null, unaligned and out-of-range addresses change nothing |
| Pmm.FrameAllocator.MarkRangeFree | kernel/src/mm/pmm.c:111-131 | exactly the frames of the range but frame 0 become free |
| Pmm.FrameAllocator.MarkRangeUsed | kernel/src/mm/pmm.c:52-67 | exactly the frames the range touches become used |
| PteBits.DecodeInjective | kernel/src/arch/i686/hal_vmm.c:56-66 | an entry's frame and flags lose none of the bits |
| PteBits.EncodeDecode | kernel/src/arch/i686/hal_vmm.c:56-66 | a word and its frame and flags determine each other |
| PteBits.ProcessorBits | kernel/src/arch/i686/hal_vmm.c:56-66 | present, writable and user are bits 0, 1 and 2 of a word, and the copy-on-write bit is one the processor ignores |
| PteBits.MarkCowBits | kernel/src/arch/i686/hal_vmm.c:374-402 | the bit operations of the fork make an entry copy-on-write and read-only and change nothing else of it |
| PteBits.PromoteBits | kernel/src/arch/i686/hal_vmm.c:333-358 | the bit operations of the fault handler make it writable again and change nothing else |
| PteBits.MapBits | kernel/src/arch/i686/hal_vmm.c:56-66 | the flags of a new mapping are those asked for, and present |
| PageTables.RemappedInv | kernel/src/arch/i686/hal_vmm.c:125-182 | replacing one user entry by a fresh frame or by nothing keeps the whole invariant: tables, kernel half, a reference counted for every space that maps a frame, writable means exclusive |
| PageTables.UserSameInv | kernel/src/arch/i686/hal_vmm.c:103-132 | changes that leave all user entries alone keep it too |
| Vmm.CowStepSound | kernel/src/arch/i686/hal_vmm.c:333-358 | a copy-on-write fault keeps the invariant exactly when the frame can be copied; then no space sees any page change and the page is privately writable |
| Vmm.CowWraps | kernel/src/mm/pmm.c:26-31 | at the largest count the increment wraps and the invariant breaks |
| Vmm.CowNoFrame | kernel/src/arch/i686/hal_vmm.c:333-358 | without a free frame the invariant breaks |
| Vmm.Machine.HandleCow | kernel/src/arch/i686/hal_vmm.c:333-358 | the handler is that step for copy-on-write entries and refuses all others |
| VmmMap.GetOrCreateTable | kernel/src/arch/i686/hal_vmm.c:91-119 | the row has a table afterwards, unless it had none and no frame is free; a new one is empty, and its directory entry allows writing, and user programs only if asked |
| VmmMap.MapChunk | kernel/src/arch/i686/hal_vmm.c:125-149 | the pages of one table are mapped in order, or nothing |
| VmmMap.MapRange | kernel/src/arch/i686/hal_vmm.c:193-234 | exactly the pages up to where it stopped are mapped to consecutive frames with the rights asked for; it succeeds exactly if the free frames cover the tables lacking; directory entries that were there stay, new ones allow writing, and user programs only if asked; nothing for a range that wraps |
| VmmMap.MappedBytes | kernel/src/arch/i686/hal_vmm.c:68-85 | for every address of every space: the translation of a mapped range is linear, kernel mappings show in all spaces, everything else translates as before |
| VmmMap.Coherent | kernel/src/arch/i686/hal_vmm.c:304-312 | every space translates kernel addresses as the kernel does |
| VmmUnmap.UnmapChunk | kernel/src/arch/i686/hal_vmm.c:154-182 | the pages of one table are gone; the table is given back exactly if it is cleared as a whole |
| VmmUnmap.UnmapRange | kernel/src/arch/i686/hal_vmm.c:236-267 | exactly the pages of the range are unmapped, and exactly the user tables that lie wholly in it are given back; nothing for a range that wraps; whole kernel tables are ruled out, as the code asserts |
| VmmUnmap.UnmappedBytes | kernel/src/arch/i686/hal_vmm.c:68-85 | for every address of every space: the range translates to 0, everything else as before |
| VmmRegion.FreeRegion | kernel/src/mm/va_allocation.c:48-65 | the pages disappear from this space only, every frame keeps a reference for each space that still maps it, and the tables that lie wholly in the region are free |
| VmmRegion.ReleasedInv | kernel/src/mm/va_allocation.c:48-65 | dropping the references and unmapping together keep the invariant |
| VmmGrow.AllocRegion | kernel/src/mm/va_allocation.c:16-46 | succeeds exactly if there is a free frame for each page and each table lacking, and backs every page with a frame that was free; otherwise it gets as far as the frames reach, and those pages are unmapped and their frames free |
| VmmGrow.GrowInv | kernel/src/mm/va_allocation.c:16-46 | backing a page with a free frame keeps the invariant |
| VmmGrow.GrowthViews | kernel/src/mm/va_allocation.c:16-46 | what each space sees of it: only the pages of the range, only in this space, with the rights asked for, except for user programs where a table there keeps them out |
| VmmGrow.UserAsAsked | kernel/src/arch/i686/hal_vmm.c:103-119 | all pages of a region asked for user programs can be used by them exactly if no row it touches had a table for the kernel only |
| VmmGrow.RollbackRestores | kernel/src/mm/va_allocation.c:16-46 | a failed call puts every page back exactly when no page within reach of the free frames was mapped before |
| VmmGrow.RollbackClean | kernel/src/mm/va_allocation.c:16-46 | a failed call on a range with no mapped page changes nothing anyone sees |
| VmmGrow.MappedOver | kernel/src/mm/va_allocation.c:16-46 | a region with a mapped page does not fail as documented: the page is backed by another frame |
| VmmFork.SetCow | kernel/src/arch/i686/hal_vmm.c:374-402 | every writable user page becomes read-only copy-on-write and every frame gains one reference per page, entry by entry, of which the count keeps 16 bits |
| VmmFork.MarkedInv | kernel/src/arch/i686/hal_vmm.c:374-402 | marking a space keeps the invariant and no space sees any page change |
| VmmFork.CopyTables | kernel/src/arch/i686/hal_vmm.c:408-429 | the copy loop gives the child its own tables with the parent's entries, under directory entries with the parent's flags; no live space notices; a table is lost, and its entry leads to frame 0, exactly if there are not enough free frames |
| VmmFork.AddSpace | kernel/src/arch/i686/hal_vmm.c:408-429 | the child may become live: counts, exclusivity and tables are right for it as well |
| VmmFork.KernelCopied | kernel/src/arch/i686/hal_vmm.c:404-406 | copying the kernel half at the end changes nothing |
| VmmFork.Clone | kernel/src/arch/i686/hal_vmm.c:408-429 | the invariant holds with both live exactly if there is a frame for each table and no count is at its limit, otherwise no use of the frames makes it hold; nobody else sees a change; with enough frames the child sees exactly the parent's pages with the rights both levels give, and its directory entries have the parent's flags; the exact counts, and the number of frames taken |
| VmmFork.ForkSound | kernel/src/arch/i686/hal_vmm.c:374-429 | both directions of that condition, from the states before, between and after marking and copying |
| VmmFork.MissesBroken | kernel/src/arch/i686/hal_vmm.c:408-429 | a table for which there was no frame: the child's directory leads to frame 0, which no use of the frames makes sound |
| VmmFork.ForkWraps | kernel/src/arch/i686/hal_vmm.c:374-402 | a count at the limit: the state the fork ends in has a frame in use with no reference, which no use of the frames makes sound |
| VmmSpace.CreateSpace | kernel/src/mm/vmspace.c:42-60 | a new space with the kernel half and no user page; fails exactly without a free frame, changing nothing |
| VmmSpace.DestroySpace | kernel/src/arch/i686/hal_vmm.c:364-372 | the space is gone and exactly its directory and its tables are free again, with no reference left; every other frame, its count and its contents stay; no other space notices |
| VmmSpace.BelongingsAre | kernel/src/arch/i686/hal_vmm.c:364-372 | these frames belong to this space alone, and there is one for the directory and one for each table |
| VmmSpace.StoreSeen | kernel/src/arch/i686/hal_vmm.c:333-358 | a store through a writable entry is seen in that page of that space only |
| VmmSpace.OnlyHere | kernel/src/arch/i686/hal_vmm.c:374-402 | a frame under a writable entry backs no other page anywhere |
| VmmSpace.Fault | kernel/src/arch/i686/hal_vmm.c:333-358 | after the fault the page is present and writable, no page of any space changed, and exactly the first free frame was taken |
| VmmSpace.Access | kernel/src/page_fault_handler.c:30-76 | an access by a user program succeeds exactly if the page is there for user programs and, for a store, was writable before any fork; a copy is made exactly if it faults on a copy-on-write page; no page of any space changes |
| VmmSpace.Store | kernel/src/arch/i686/hal_vmm.c:333-358 | a store succeeds exactly if the page is there for user programs and was writable before any fork, changes one word of one page of one space, and takes the first free frame exactly if the page is copied |
| VmmSpace.KernelMappedInv | kernel/src/arch/i686/hal_vmm.c:193-234 | mapping kernel memory through any space keeps the invariant and touches no user entry |
| VmmSpace.KernelUnmappedInv | kernel/src/arch/i686/hal_vmm.c:236-267 | so does unmapping it |
| VmmSpace.Prealloc | kernel/src/arch/i686/hal_vmm.c:304-312 | succeeds exactly if the free frames cover the kernel tables lacking; then the kernel space satisfies the whole invariant |
| VmmSpace.BootInv | kernel/src/arch/i686/hal_vmm.c:304-312 | a single kernel space with all kernel tables satisfies the invariant |
| VmmSpace.Boot | kernel/src/mm/vmspace.c:25-39 | starts exactly with 257 free frames, the directory and its kernel tables; then the first frames appear at the kernel base, linearly, for the kernel to read and write, and the invariant holds; an unchecked mapping failure shows up in the preallocation |
| VmmSpace.DirectBytes | kernel/src/mm/vmspace.c:25-39 | every address of that window translates to its offset |
| VmmSpace.DirectRights | kernel/src/mm/vmspace.c:30-34 | every page of it is writable and closed to user programs, by both levels of the tables |
| VmmRun.DoFork | kernel/src/mm/vmspace.c:67-92 | fork is a step: the child gets a copy of all the parent's pages, at the cost of a frame for the directory and one for each table, with the exact counts |
| VmmRun.DoExit | kernel/src/mm/vmspace.c:94-112 | exit is a step: only that process disappears, and exactly its directory and tables are free again |
| VmmRun.DoWrite | kernel/src/arch/i686/hal_vmm.c:333-358 | a user store is a step: one word of one process |
| VmmRun.DoGrow | kernel/src/mm/va_allocation.c:16-46 | growing memory is a step, as far as the free frames reach; the new pages are writable if asked, and for user programs unless their row has a table that keeps them out |
| VmmRun.DoRelease | kernel/src/mm/va_allocation.c:48-65 | releasing memory is a step, and its frames and whole tables are given back |
| VmmRun.DoKMap | kernel/src/arch/i686/hal_vmm.c:193-234 | mapping kernel memory through any process is a step: every process sees it with the rights asked for and no user page changes |
| VmmRun.DoKUnmap | kernel/src/arch/i686/hal_vmm.c:236-267 | so is unmapping it |
| VmmRun.KernelSeen | kernel/src/arch/i686/hal_vmm.c:404-406 | every process sees the kernel's own entries |
| VmmRun.Run | kernel/src/arch/i686/hal_vmm.c:333-429 | every run of forks, exits, loads, stores, growth, release and kernel mappings, of any length and from any sound state, is a run of processes with private memory and one shared kernel; the invariant holds in every state; each event takes and gives back the frames it should; an event is refused exactly if it is malformed or the state is short of the frames or counts it needs |
| VmmRun.Isolated | kernel/src/arch/i686/hal_vmm.c:333-429 | over any such run, the pages of a process change only by its own events, however the processes descend from each other |
| Slab.Slots | kernel/src/mm/kmalloc.c:158-189 | every object lies between the header and the end of its page |
| Slab.SlotsFit | kernel/src/mm/kmalloc.c:170-174 | a slab has every object that fits in its page, and no other |
| Slab.SlotsApart | kernel/src/mm/kmalloc.c:158-189 | objects do not overlap |
| Slab.PoppedOk | kernel/src/mm/kmalloc.c:195-206 | taking the first free object leaves a well-formed free list without it |
| Slab.PushedOk | kernel/src/mm/kmalloc.c:209-214 | giving an object back puts it in front of a well-formed list |
| Slab.BodyWrite | kernel/src/mm/kmalloc.c:195-214 | a holder may write any word of an object without touching the free list |
| Slab.Format | kernel/src/mm/kmalloc.c:158-189 | a page of arbitrary words becomes a slab whose objects are all free |
| HeapPages.Scan | kernel/src/mm/kmalloc.c:83-112 | one pass finds the first run of free pages, or there is none |
| HeapPages.Pages.VaAlloc | kernel/src/mm/kmalloc.c:83-112 | first fit from the hint, then from the start, and the hint moves behind it; fails exactly if neither part has a run, changing nothing |
| HeapPages.SeamRefuses | kernel/src/mm/kmalloc.c:88-110 | a run that spans the hint is not found, even if all pages are free |
| HeapPages.Pages.VaFree | kernel/src/mm/kmalloc.c:114-122 | exactly the pages of the range become free, and the hint moves back to them if it was behind them |
| HeapPages.Pages.MapPages | kernel/src/mm/kmalloc.c:268-279 | the pages get distinct frames that were free, all of them exactly if there are enough frames and none is refused; the number of frames taken |
| HeapPages.Pages.UnmapPages | kernel/src/mm/kmalloc.c:410-415 | mappings and free frames are exactly as before those pages were mapped; the number of frames given back |
| HeapPages.Pages.AllocPages | kernel/src/mm/kmalloc.c:259-292 | pages with frames at the first fit, exactly if there is one, its pages can be mapped and there are enough frames; otherwise pages, frames and mappings are exactly as before, and the hint is where taking and giving back leaves it |
| HeapPages.Pages.FreePages | kernel/src/mm/kmalloc.c:406-416 | exactly the pages and frames of the range become free, and the hint moves back to them |
| HeapPages.NextFit | kernel/src/mm/kmalloc.c:88-110 | pages that follow those taken last are taken next, if they are free |
| HeapPages.FreedFirst | kernel/src/mm/kmalloc.c:114-122 | pages given back from before the hint are what the next request for as many gets; otherwise the search goes on where it was |
| HeapPages.FilledBack | kernel/src/mm/kmalloc.c:83-122 | reserving and then freeing a free run restores the bitmap |
| HeapLists.Linked | kernel/src/mm/kmalloc.c:316-338 | linking a slab in front keeps all lists acyclic, disjoint and complete |
| HeapLists.Cut | kernel/src/mm/kmalloc.c:442-465 | so does unlinking it from any position |
| HeapSteps.StartInjective | kernel/src/mm/kmalloc.c:252-366 | two blocks handed out have different addresses |
| HeapSteps.PopOpen | kernel/src/mm/kmalloc.c:340-345 | taking an object keeps the heap invariant and hands out a new address |
| HeapSteps.PushOpen | kernel/src/mm/kmalloc.c:437-440 | giving one back keeps it |
| HeapSteps.NewSlabLoose | kernel/src/mm/kmalloc.c:329-338 | so does adding a slab on a page that nothing owns |
| HeapSteps.NewLargeSettled | kernel/src/mm/kmalloc.c:294-306 | so does handing out a run of pages |
| HeapSteps.DropLargeSettled | kernel/src/mm/kmalloc.c:405-421 | so does giving it back |
| HeapData.Apart | kernel/src/mm/kmalloc.c:252-366 | different blocks have no word in common |
| HeapData.HeadersOnly | kernel/src/mm/kmalloc.c:400-474 | changes to slab headers change no block's contents |
| HeapState.ChargeIs | kernel/src/mm/kmalloc.c:298-299 | a block counts for what its holder may use, and a large one for its header |
| Kmalloc.SumPick | kernel/src/mm/kmalloc.c:437-440 | the usage of a set of blocks is that of one block plus that of the rest, whichever block it is |
| Kmalloc.CacheForSize | kernel/src/mm/kmalloc.c:224-231 | the smallest class that fits; none exactly above 2048 |
| Kmalloc.LiveApart | kernel/src/mm/kmalloc.c:252-366 | the address ranges of two live blocks are disjoint |
| Kmalloc.OnOneList | kernel/src/mm/kmalloc.c:347-356 | a slab is on a list exactly if that is the list of its class for its number of free objects |
| Kmalloc.LargeEnough | kernel/src/mm/kmalloc.c:258-260 | a large block that gets pages is large enough exactly when its size can be added to its header, and then has not a page too many; which sizes get no page, and that the last 15 get one |
| Kmalloc.Overflow | kernel/src/mm/kmalloc.c:375-382 | the division test detects exactly the products that overflow |
| Kmalloc.Allocator.constructor | kernel/src/mm/kmalloc.c:234-249 | the empty heap satisfies the invariant |
| Kmalloc.Allocator.Unlink | kernel/src/mm/kmalloc.c:442-465 | the pointer-to-pointer walk takes exactly this slab off its list; no block changes |
| Kmalloc.Allocator.PickSlab | kernel/src/mm/kmalloc.c:316-338 | a slab of the class with a free object, at the head of the partial list, exactly if there was one or a page for a new one; no block changes; pages are taken only for a new slab |
| Kmalloc.NoneFree | kernel/src/mm/kmalloc.c:316-338 | if neither list is offered, no slab of the class anywhere has a free object |
| Kmalloc.Allocator.AllocSmall | kernel/src/mm/kmalloc.c:309-366 | a new object of the class exactly if one is free or a page is to be had, else one more failure counted; no contents change; one page is taken exactly for a new slab; the usage counter is the sum over live blocks |
| Kmalloc.Allocator.FreeSmall | kernel/src/mm/kmalloc.c:423-474 | exactly this block is no longer live; all lists stay right whichever of them the slab was on; slabs keep their pages |
| Kmalloc.Allocator.AllocLarge | kernel/src/mm/kmalloc.c:257-307 | a new block of the right number of pages exactly if they are to be had, which are then taken with their frames; else pages, frames and mappings exactly as before |
| Kmalloc.Allocator.FreeLarge | kernel/src/mm/kmalloc.c:405-421 | exactly this block is no longer live, and exactly its pages and their frames are free |
| Kmalloc.Allocator.Kmalloc | kernel/src/mm/kmalloc.c:252-366 | a block at a new address exactly if the size is not 0 and an object or the pages for it are to be had; large enough exactly unless it is one of the last 15 sizes; no live block changes |
| Kmalloc.Allocator.Classified | kernel/src/mm/kmalloc.c:388-397 | for every live block the header test tells large from small, whatever the holders wrote into their blocks |
| Kmalloc.Allocator.Kfree | kernel/src/mm/kmalloc.c:400-474 | exactly this block goes; the contents of all others stay; the pages and frames of a large block are free, those of slabs stay; null is ignored |
| Kmalloc.Allocator.Kzalloc | kernel/src/mm/kmalloc.c:252-372 | as kmalloc, and every word of the block is 0 |
| Kmalloc.Allocator.Kcalloc | kernel/src/mm/kmalloc.c:375-382 | as kzalloc for the product; null exactly where the product overflows or no block is to be had |
| Kmalloc.Allocator.Krealloc | kernel/src/mm/kmalloc.c:477-517 | the block stays where it is exactly if it is large and still fits or the class is the same; otherwise it moves exactly if a new one is to be had. The new block starts with the old contents and is large enough; failure keeps the old block and everything else; size 0 frees |
| Kmalloc.Allocator.Write | kernel/src/mm/kmalloc.c:252-366 | a holder's store keeps the heap invariant and changes one word of one block |
| HeapRun.Run | kernel/src/mm/kmalloc.c:252-517 | every run of allocations, frees, resizes, loads and stores is a run of a map from addresses to separate arrays of words; a request fails exactly if no block is to be had in that state; each event takes and gives back the pages and frames it should |
| HeapRun.DoAlloc | kernel/src/mm/kmalloc.c:252-372 | an allocation is a step: one new array exactly if one is to be had, and no other change |
| HeapRun.DoFree | kernel/src/mm/kmalloc.c:400-474 | a free is a step: one array less, and its pages and frames are given back |
| HeapRun.PagesAgain | kernel/src/mm/kmalloc.c:83-122 | pages given back can be had again, wherever the hint is then |
| HeapRun.ObjectAgain | kernel/src/mm/kmalloc.c:423-474 | an object given back is free in a slab of its class |
| HeapRun.FreeThenAlloc | kernel/src/mm/kmalloc.c:252-474 | after a free in any run, a request that the freed block would serve cannot fail |
| HeapRun.NoPageTaken | kernel/src/mm/kmalloc.c:309-366 | a request that some slab of its class has room for is met and takes no page |
| HeapRun.SlabServes | kernel/src/mm/kmalloc.c:158-206 | over any run of requests of one class, the one that makes a slab is followed by requests that are met and take no page, until no further object fits in the slab |
| HeapRun.InPlace | kernel/src/mm/kmalloc.c:488-504 | a resized block that would serve the request stays where it is, and a small one only then |
| HeapRun.DoRealloc | kernel/src/mm/kmalloc.c:477-517 | a resize is a step: the common prefix is carried over |
| HeapRun.SeparateBlocks | kernel/src/mm/kmalloc.c:252-366 | in every state of the heap the arrays occupy disjoint addresses |
| SchedQueues.AppendedLinked | kernel/src/sched/sched.c:83-112 | appending a thread keeps heads, tails and links of all queues right and every thread in at most one |
| SchedQueues.RemovedLinked | kernel/src/sched/sched.c:248-283 | so does removing one from any position |
| Sched.LevelFor | kernel/src/sched/sched.c:118-139 | the first priority whose slice covers the estimate, else the lowest |
| Sched.NeverWorse | kernel/src/sched/sched.c:118-139 | a burst within its slice never leads to a lower priority than before |
| Sched.OldYoung | kernel/src/sched/sched.c:145-188 | an aging pass splits each queue into exactly the threads that waited long enough and the others |
| Sched.AgingAsMeant | kernel/src/sched/sched.c:154 | with the threshold as the macros expand, every thread is promoted; this is what is documented exactly when all have waited 500 ms |
| Sched.AgingTooSoon | kernel/src/sched/sched.c:154 | a thread queued in the same tick is promoted and should not be |
| Sched.Scheduler.Promote | kernel/src/sched/sched.c:154-180 | one thread moves to the back of the next level, with its priority and its waiting time set |
| Sched.Scheduler.AgeLevel | kernel/src/sched/sched.c:147-187 | one level: those due move in order behind the next level's threads, the others stay in order |
| Sched.Scheduler.ApplyAging | kernel/src/sched/sched.c:145-188 | the whole pass: exactly the threads due rise by exactly one level, none is lost or doubled |
| SchedState.EnqueuedInv | kernel/src/sched/sched.c:83-112 | enqueueing keeps the scheduler invariant |
| SchedState.RisenInv | kernel/src/sched/sched.c:145-188 | aging keeps it |
| SchedState.TakenInv | kernel/src/sched/sched.c:190-214 | taking a thread keeps it, and its priority is no worse than at its last dispatch |
| SchedOps.Enqueue | kernel/src/sched/sched.c:83-112 | the thread goes to the back of the queue of its priority, unknown priorities count as medium, idle tasks are not queued |
| SchedOps.EnqueueTwice | kernel/src/sched/sched.c:83-112 | queued again while queued: what is left of the queue, if it is a list at all, has lost everybody behind the thread |
| SchedOps.Classify | kernel/src/sched/sched.c:118-139 | the loop finds the priority for an estimate |
| SchedOps.Prepare | kernel/src/sched/sched.c:118-139 | estimate, priority and slice of a thread about to run (`SchedBurst.BurstDecides` says which priority that is) |
| SchedOps.PickNext | kernel/src/sched/sched.c:190-214 | the first thread of the highest level that has one, else the idle task |
| SchedOps.SwitchNext | kernel/src/sched/sched.c:285-288 | the thread picked runs and is in no queue |
| SchedOps.WakeUp | kernel/src/sched/sleep.c:17-28 | exactly the sleepers whose time has come wake, in order, although the loop stops at the first that is not due |
| SchedOps.EnqueueSleeper | kernel/src/sched/sleep.c:30-50 | the sleep queue stays sorted and threads with equal times keep their order |
| SchedOps.Sleep | kernel/src/sched/sleep.c:52-57 | the running thread enters the sleep queue at its place and another one runs |
| SchedOps.Dequeue | kernel/src/sched/sched.c:248-283 | exactly this thread leaves its queue and is dead, asleep or not; what is ignored |
| SchedRun.Charge | kernel/src/sched/sched.c:225-246 | the running thread is charged a tick and replaced exactly when the 32-bit signed remainder of its slice is not positive |
| SchedRun.RemainingIs | kernel/src/sched/sched.c:238-239 | for a slice that is not overrun that remainder is the ticks left |
| SchedBurst.TickSlice | kernel/src/sched/sched.c:225-246 | a tick leaves the running thread running with one tick more used before the end of its slice, and queues it at the end |
| SchedBurst.RunsItsSlice | kernel/src/sched/sched.c:225-246 | over any run, a thread that does not give up the processor keeps it until the ticks used reach its slice |
| SchedBurst.StepBurst | kernel/src/sched/sched.c:118-139 | in any state, an event that dispatches a thread does so at the level its burst calls for, and every other event adds the tick the thread was running for |
| SchedBurst.BurstDecides | kernel/src/sched/sched.c:118-139 | over any run, a thread dispatched at level d that ran for u ticks is next dispatched at level d - 1 exactly if d > 0 and u plus the slice of d is at most twice the slice of d - 1 plus one, and at level d otherwise |
| SchedRun.IdleGivesWay | kernel/src/sched/sched.c:238-239 | the idle task gives way at a tick exactly until it was charged for 2^31 of them |
| SchedRun.OnTimerTick | kernel/src/sched/sched.c:216-246 | a tick is waking exactly the sleepers that are due, then aging every hundredth tick, then charging |
| SchedRun.Requeue | kernel/src/sched/sys_yield.c:9-13 | yielding: the running thread goes to the back of its queue and the first of the highest level runs |
| SchedRun.Rejoin | kernel/src/proc/sys_exit.c:23-26 | a stopped thread is queued again |
| SchedRun.ResumableNowhere | kernel/src/proc/sys_exit.c:23-26 | a stopped thread is in no queue, not asleep and not running |
| SchedRun.SleepAsMeant | kernel/src/sched/sleep.c:55 | the ticks of sys_sleep are the seconds asked for exactly for 0 seconds, and one for every 1000 seconds exactly while the milliseconds fit 32 bits |
| SchedRun.NapAsMeant | kernel/src/sched/sleep.c:63-64 | the ticks of sys_nanosleep are the time asked for exactly if the product does not overflow 64 bits |
| SchedSleep.SleepLength | kernel/src/sched/sleep.c:17-28 | a sleep lasts as long as asked exactly if it ends before the 32-bit tick wraps, or the wrap is at the next tick and something, but not more than a round, is asked for |
| SchedSleep.SleepCut | kernel/src/sched/sleep.c:17-57 | a sleep of five ticks just before the wrap is over at the next tick |
| SchedSleep.SleepStuck | kernel/src/sched/sleep.c:17-57 | a sleep of no ticks at the last tick before the wrap lasts a whole round |
| SchedSleep.StepAsleep | kernel/src/sched/sleep.c:17-28 | in any state, a sleeper is woken by a tick at which its time has come and by no other event |
| SchedSleep.SleepsAsLong | kernel/src/sched/sleep.c:17-84 | over any run, a thread that goes to sleep in time is asleep after every event up to the tick that is as much later as it asked for, and is woken by that tick |
| SchedRun.Spawn | kernel/src/sched/sched.c:83-112 | a new thread is queued at its level |
| SchedRun.Stop | kernel/src/proc/sys_exit.c:20-28 | the running thread stops and another one runs |
| SchedRun.DoEvent | kernel/src/sched/sched.c:83-288 | each event has exactly the effect of its operations on queues, sleepers, fields and running thread |
| SchedRun.Run | kernel/src/sched/sched.c:83-288 | over every run of ticks, sleeps, yields, stops, starts and resumptions: each event does what it should at the timer's tick, the queues are right in every state, exactly the live threads are ready, asleep or running, and no thread's dispatch priority ever gets worse |
| SchedFair.Climb | kernel/src/sched/sched.c:145-188 | over a run, a ready thread that is not dispatched rises by a level with every aging pass it is eligible for |
| SchedWait.StepDated | kernel/src/sched/sched.c:145-188 | a ready thread has been waiting since it was queued; only an aging pass it is eligible for sets its waiting time anew |
| SchedWait.NotTooSoon | kernel/src/sched/sched.c:145-188 | over any run, a thread that stays ready keeps its level until as many ticks as the threshold have passed since it was queued |
| SchedFair.FrontServed | kernel/src/sched/sched.c:190-246 | a thread on the highest level runs within a longest slice for each thread ahead and what is left of the running one |
| SchedFair.FrontInSlices | kernel/src/sched/sched.c:190-246 | while a thread other than an idle task runs, that is at most one longest slice for it and one for each thread ahead |
| SchedFair.NoStarvation | kernel/src/sched/sched.c:145-246 | for every threshold, a ready thread on level p is dispatched, at the latest, after p aging passes it is eligible for and then a slice for every thread on the highest level |
| SchedFair.NeverStarves | kernel/src/sched/sched.c:145-246 | with the threshold the code has, after 300 ticks and a slice for every thread on the highest level |
| SchedRun.Init | kernel/src/sched/sched.c:45-58 | the scheduler starts in such a state |
| Fat.Unpacks | bootloader/stage2/src/fat.c:164-170 | reading entry `c` of a packed FAT12 table gives entry `c`, for every table |
| Fat.Tiles | bootloader/stage2/src/fat.c:134-137 | the clusters from number 2 on tile the data area, in order and without gaps |
| Fat.TilesUpTo | bootloader/stage2/src/fat.c:134-137 | the sectors of the clusters 2 to k + 1 are the first k clusters of the data area |
| Fat.StoredInOrder | bootloader/stage2/src/fat.c:134-216 | a file in those clusters is what the disk holds from the start of the data area |
| Fat.Volume.SectorAt | bootloader/stage2/src/fat.c:134-137 | where sector `s` of the n-th cluster is in the sectors of a chain |
| Fat.Volume.NextPart | bootloader/stage2/src/fat.c:196-204 | the table leads from each cluster of a chain to the next, and from the last to the end |
| Fat.File.constructor | bootloader/stage2/src/fat.c:138-163 | an opened file stands at the first sector of its chain |
| Fat.File.Advance | bootloader/stage2/src/fat.c:188-212 | after a sector was used up the state stands at the next one, or at the end with the size corrected |
| Fat.File.Piece | bootloader/stage2/src/fat.c:181-214 | one round returns the next bytes of the chain and keeps the state in step |
| Fat.File.Read | bootloader/stage2/src/fat.c:171-216 | exactly the next bytes of the file, as many as asked for or left; of a regular file never more than its size, and all of it if the chain is that long |
| Fat.File.ReadAll | bootloader/stage2/src/fat.c:171-216 | any sequence of reads yields what one read of the total would |
| Multiboot.PutCmdline | bootloader/stage2/src/multiboot2.c:18-25 | the tag is at its place and nothing before it changed |
| Multiboot.PutModule | bootloader/stage2/src/multiboot2.c:27-40 | the same for a module, although its size is stored last |
| Multiboot.PutMmap | bootloader/stage2/src/multiboot2.c:42-64 | the same for the memory map |
| Multiboot.TagFormat | bootloader/stage2/src/multiboot2.c:12-75 | type, size, addresses, entry size and strings stand at the offsets of the standard |
| Multiboot.RegionFormat | bootloader/stage2/src/multiboot2.c:50-59 | so do base, length and type of an entry of the memory map |
| Multiboot.RegionPlace | bootloader/stage2/src/multiboot2.c:50-59 | entries stand one behind the other, 24 bytes each |
| Multiboot.AlignIs | bootloader/stage2/src/multiboot2.c:9 | tags are padded to the next multiple of eight |
| Multiboot.LaidNext | bootloader/stage2/src/multiboot2.c:12-75 | a tag written behind laid-out tags extends the layout |
| Multiboot.Build | bootloader/stage2/src/multiboot2.c:12-75 | the buffer holds all tags, aligned, in order, with the total size |
| MultibootParse.TagWords | kernel/src/kernel_boot_info.c:38-41 | type and size of a laid-out tag can be read back |
| MultibootParse.ReadString | kernel/src/kernel_boot_info.c:42-51 | strlen and copy give back the string |
| MultibootParse.ReadRegions | kernel/src/kernel_boot_info.c:74-92 | the regions, up to the limit |
| MultibootParse.ReadTag | kernel/src/kernel_boot_info.c:38-98 | one tag of the walk is taken as specified and the walk stands at the next |
| MultibootParse.Parse | kernel/src/kernel_boot_info.c:30-101 | the walk takes every tag up to the end tag |
| MultibootParse.RoundTrip | kernel/src/kernel_boot_info.c:15-101 | parsing gives back command line, modules in reverse order and regions up to the limit, exactly when they fit the early allocator |
| MultibootParse.TooLong | kernel/src/kernel_boot_info.c:15-101 | a command line as long as the early buffer fails |
| MultibootParse.JustFits | kernel/src/kernel_boot_info.c:12-28 | a command line of 5090 characters is the longest that fits, with no module |
| MultibootParse.Boot | bootloader/stage2/src/multiboot2.c:12-75 | writer, then parser, on any buffer that is large enough |

## Left out

- Symbolic links: like files as far as the file layer goes.
- The fields of the superblock: `FsMount` gets the layout as a parameter, as it is the same before and after.
- The inode cache and the file layer are two models, joined at unmount and mount (`FsMount`); in between, file operations work on inodes directly, which `FsCache.InodeCache.Run` justifies for inodes that are marked dirty when changed.
- FsCache.InodeCache.Iput: takes the inode number as a parameter. The code reads it from the inode once more for the removal (`myfs.c:474`), after the nested put of the write-back (`myfs.c:473`) may have freed the inode.
- FsMount.Remount: says that the files are the same if all inodes come back; an inode that does not may still show the same bytes, for instance if only its block count differs.
- Failing `kmalloc` inside the file system and disk errors: calls into code outside these models.
- FsFile.NodeWrite: writes that end within a block of 4 GiB are excluded, where the 32-bit rounding wraps; no file can be that large (`FsFile.SizeBound`).
- FsFile.NodeRead: excluded exactly where the clipping fails (`FsFile.ReadClamped`); the code then reads past the end of the file.
- FsTree.CreateFile: names of at most 31 characters; `FsRecords.LongNames` says what happens to longer ones.
- FsTree.CreateDir: the same.
- FsTree.Rename: the same for the new name, and a new name that names one of the two directories is excluded; the code would free a directory it is working on.
- FsTree.RemoveDir: an entry that names its own directory is excluded, as for `FsTree.Unlink`.
- FsTree.Unlink: an entry that names its own directory is excluded; the code would free the directory it is working on.
- FsFormat.Format: only block counts that are a multiple of eight and leave a data area; `FsFormat.PaddingBits` and `FsFormat.LayoutHolds` say why.
- FsRun.Start: the same.
- FsRun.Run: writes go to regular files only; raw writes to the bytes of a directory are refused.
- VmmSpace.Boot: memory starts at address 0, and the mapping of the VGA buffer is left out.
- VmmGrow.AllocRegion: user addresses only, and new pages have arbitrary contents, since the code does not clear them.
- VmmSpace.Fault: a page that cannot be copied is excluded; `Vmm.Machine.HandleCow` and `Vmm.CowStepSound` say what happens to it.
- VmmSpace.Store: the same.
- VmmRun.DoWrite: the same.
- VmmRun.DoFork: a fork short of frames or counts is excluded; `VmmFork.Clone` says what state it ends in.
- VmmRun.DoKUnmap: as `VmmUnmap.UnmapRange`.
- VmmRun.Run: an event that the code cannot carry out soundly in the state it meets is refused, since the code would go on with a broken invariant.
- VmmUnmap.UnmapRange: ranges that cover a whole kernel table are excluded; the code asserts that they do not occur.
- TLB flushing, `vma` lists and the copy routines of `vmspace.c`.
- Kmalloc.Allocator.Krealloc: the last 15 sizes are excluded, for which the code copies past the end of a block that is too small; of a size that is no multiple of 4 the bytes of the last, partial word are not tracked.
- HeapRun.FreeThenAlloc: for large blocks `hal_vm_map` must refuse no page, since the first fit may be another run than the one freed.
- The statistics `total_allocated` and `total_freed` of the heap: sums that only grow.
- HeapPages.Pages.MapPages: `hal_vm_map` is a set of pages it refuses, not the page table model.
- SchedOps.Enqueue: a thread that is already queued is excluded, see `SchedOps.EnqueueTwice`; so is one that is asleep, which would be queued twice when it wakes.
- SchedOps.Sleep: idle tasks do not sleep.
- Locks, interrupts and context switches: every operation runs to its end.
- The aging threshold is a parameter of the scheduler; `Sched.AgingAsMeant` gives its value. The run-time statistics of threads are not modelled.
- Wait queues of `kernel/src/sched/wait.c`: for the scheduler a wait is a stop and a wakeup a resumption.
- FAT root directory, path names and the BIOS; disk reads of a valid chain succeed.
- The rest of the system: VFS, drivers, ELF loading, the process tree, pipes, signals, terminals and user programs.
