# Verification of parts of a Xinu kernel and its IPv6 stack

This project models seven components of the repository in Dafny and proves properties of the
models. Tables and lists in memory are arrays and linked structures of classes whose methods follow
the C functions statement by statement; beside them stands a model over values (sequences, maps and
records), each method's contract ties the new memory to a step of that model, and the properties
are proved of the model, mostly over all runs.

* **Local file system** (`LfsDisk`, `LfsState`, `LfsFile`, `LfsSystem`, `LfsSteps`, `LfsTruncate`,
  `LfsPersist`, `LfsSpec`, `Lfs`, `LfsCreate`, `LfsCapacity`, `LfsVolume`, `LfsRuns`). The disk is an array
  of sectors, the control blocks an array of records. The invariant says which file owns which block, and
  that each file's contents are what the chain on disk shows overlaid by the cached index and data block.
  Every run of opens, closes, truncations, reads, writes and seeks on any files is a run on named byte
  sequences, and a restart after it finds the files again.
* **quicksort** (`QuickSort`) on an array of bytes with elements of any size.
* **Heap** (`HeapModel`, `Heap`, `HeapRuns`): one free list in ascending order whose headers lie in
  the free memory, for first fit, last fit from the top, and coalescing release.
* **Process kernel** (`DeltaList`, `KernelModel`, `KernelMoves`, `KernelCalls`, `KernelRuns`, `KernelTime`,
  `KernelEffects`, `KernelSemaphores`, `KernelMessages`, `KernelOrder`, `QueueTable`, `KernelQueues`, `Kernel`). One call is one step up to the
  context switch, and a context switch is a change of the current process.
* **Message ports** (`PortModel`, `PortSteps`, `PortRuns`, `PortProperties`, `PortHistory`, `PortNodes`, `Ports`). A
  call that waits is two steps; clearing a port is three, because both semaphore calls in it can
  switch to the processes they release while the port is in limbo.
* **IPv6 fragments** (`Fragments`, `FragmentOrder`, `FragmentList`, `ReassemblyModel`, `Reassembly`,
  `FragmentTransfer`, `FragmentLoss`, `FragmentRuns`, `FragmentMixed`), following section 4.5 of RFC 8200.
* **Forwarding table** (`Forwarding`).

`dafny verify dfyconfig.toml` checks the whole project.

## Where the code differs from what one would expect

* A fragment entry behind a hole in the reassembly table is not found (`LookupExact`, `HiddenEntry`): if a
  datagram times out that began before another, the rest of the other is lost (`LostBehindHole`).
* Fragments are put in order only if they are displaced past at most three others (`InsertSorted`). A
  datagram is handed on exactly for each stretch from a first fragment that opens an entry to the next last
  one in which every fragment came once and in such an order (`EveryRun`). So if each comes once it is lost
  unless the first comes first and the last one last (`AnyOrder`), and if a fragment that is queued comes
  once more nothing is handed on from that entry (`SecondCopy`): what then comes in is wasted until it has
  timed out. A copy that comes before the first fragment does no harm.
* Fragment offsets are right only for an MTU of at least 56, and datagrams that fit the MTU are not
  sent at all (`FragmentDatagram`).
* `recvtime(0)` enters a zero delay, and the next tick is then lost on all other sleepers (`TickStolen`,
  `LostFromBoot`); a sleeper wakes on time exactly as far as ticks are not lost (`WakesOnTime`).
* A port created for 65536 messages or more has less room after a reset (`RoomAfterReset`); made for 65536 it
  has none, and the next sender waits at an empty port (`RoomLost`).
* `lfscreate` does not write the words by which `lfscheck` recognises a file system, so a disk that it has
  formatted is never opened (`OpenBlank`).
* `lfsopen` does not mark the directory dirty, so a new file that stays empty reaches the disk only
  with some other change (`Close`); opened and closed on a mounted disk it is gone after a restart
  (`LoseEmptyFile`). Nothing else is lost if all files are closed (`RunAndRestart`).
* `roundmb` wraps for sizes above 2^32 - 8 (`RoundMbExact`): `getmem` and `getstk` then hand out memory that
  stays free (`GetMemTakes`, `GetStkTakes`).

## Model

| member | source | states |
|---|---|---|
| `Bytes.IdRoundTrip` | cs636-base/include/lfilesys.h:55-56 | the 32-bit word of a block number, the null number -1 included, reads back as that number |
| `LfsDisk.IblockRoundTrip` | cs636-base/include/lfilesys.h:71-76 | the 72 bytes of an index block read back as the same index block |
| `LfsDisk.IblockBytes` | cs636-base/include/lfilesys.h:71-76 | any 72 bytes are an index block: decoded and encoded again they are the same bytes |
| `LfsDisk.PutIbFrame` | cs636-base/device/lfs/lfibput.c:23-41 | after an index block is put it is read back, and every other index block, its six neighbours in the sector included, and every other sector are as before |
| `Lfs.LocalFileSystem.IbGet` | cs636-base/device/lfs/lfibget.c:20-30 | the copying loop delivers index block inum of the disk |
| `Lfs.LocalFileSystem.IbPut` | cs636-base/device/lfs/lfibput.c:21-42 | the read-modify-write puts exactly that index block |
| `Lfs.LocalFileSystem.CopyInto` | cs636-base/device/lfs/lfibput.c:33-37 | the copying loop replaces the bytes at the displacement and no others |
| `Lfs.LocalFileSystem.IbClear` | cs636-base/device/lfs/lfibclear.c:16-21 | no data blocks, no successor, the given offset |
| `Lfs.LocalFileSystem.IbAlloc` | cs636-base/device/lfs/lfiballoc.c:15-32 | the head of the free index list is handed out, the directory on disk has its successor as the new head |
| `Lfs.LocalFileSystem.DbAlloc` | cs636-base/device/lfs/lfdballoc.c:21-39 | the head of the free data list is handed out with a filled buffer, the directory on disk has its successor as the new head |
| `Lfs.LocalFileSystem.DbFree` | cs636-base/device/lfs/lfdbfree.c:18-24 | the block becomes the head of the free data list on disk and leads to the old head |
| `Lfs.LocalFileSystem.Flush` | cs636-base/device/lfs/lfflush.c:15-41 | an open file ends clean with its bytes, its position and everybody else unchanged; if it is not empty the disk image alone shows its bytes |
| `Lfs.LocalFileSystem.FlushBlocks` | cs636-base/device/lfs/lfflush.c:27-39 | writing back the dirty data and index blocks keeps the file and leaves its cache clean |
| `Lfs.LocalFileSystem.SetupIndex` | cs636-base/device/lfs/lfsetup.c:34-94 | from any cached index block, or none, the cached one ends as the index block of the position; one more is chained on exactly if the position lies beyond the last |
| `Lfs.LocalFileSystem.StartIndex` | cs636-base/device/lfs/lfsetup.c:39-72 | the walk starts at an index block that covers no later offset than the position, allocated if the file had none |
| `Lfs.LocalFileSystem.SeekIndex` | cs636-base/device/lfs/lfsetup.c:74-94 | the walk ends at the index block of the position |
| `Lfs.LocalFileSystem.FirstIndexBlock` | cs636-base/device/lfs/lfsetup.c:49-54 | a file without index blocks gets one from the free list as its whole chain |
| `Lfs.LocalFileSystem.LoadIndexBlock` | cs636-base/device/lfs/lfsetup.c:55-58 | replacing a clean cached index block changes no byte of the file |
| `Lfs.LocalFileSystem.NextIndexBlock` | cs636-base/device/lfs/lfsetup.c:79-88 | a full chain gets one more index block at its end, and no byte changes |
| `Lfs.LocalFileSystem.SetupData` | cs636-base/device/lfs/lfsetup.c:96-119 | the data block of the position is cached and the byte pointer stands at the position in it; a block is taken from the free list exactly if the position is at the end of the last |
| `Lfs.LocalFileSystem.Setup` | cs636-base/device/lfs/lfsetup.c:10-122 | flush, restart, walk, extend and allocate together: invariant kept, contents unchanged, the byte pointer at the position |
| `Lfs.LocalFileSystem.GetC` | cs636-base/device/lfs/lflgetc.c:20-51 | the byte at the position, which moves on by one, or end-of-file at the size, and then nothing changes; the contents stay, and no other file or control block changes |
| `Lfs.LocalFileSystem.PutC` | cs636-base/device/lfs/lflputc.c:20-63 | the byte at the position is replaced, or added at the size, and the position moves on by one; beyond the size the call is refused and nothing changes; no other file changes |
| `Lfs.LocalFileSystem.StoreByte` | cs636-base/device/lfs/lflputc.c:48-60 | one byte of the contents is replaced or added and the size on record follows |
| `Lfs.LocalFileSystem.Seek` | cs636-base/device/lfs/lflseek.c:16-40 | refused exactly if the offset lies past the size, and then nothing changes; otherwise the position is the offset and the bytes are the same |
| `Lfs.LocalFileSystem.Read` | cs636-base/device/lfs/lflread.c:15-38 | the buffer gets the bytes from the position up to the count or the end of file, and only they are written |
| `Lfs.LocalFileSystem.Write` | cs636-base/device/lfs/lflwrite.c:15-28 | the contents and position are those of the abstract file after putting each byte in turn |
| `Lfs.LocalFileSystem.RunOps` | cs636-base/device/lfs/lflputc.c:9-64 | for every run of puts, gets and seeks, if there is room for the file that results, all results and the final contents and position are those of a plain byte sequence with a position; no other file changes |
| `LfsSpec.RunBounds` | cs636-base/device/lfs/lflseek.c:25-37 | on every run the position stays within the file, which never shrinks |
| `LfsSpec.PutAllEffect` | cs636-base/device/lfs/lflwrite.c:21-28 | bytes put one after the other replace or append exactly that stretch |
| `LfsSpec.GetAllEffect` | cs636-base/device/lfs/lflread.c:22-38 | gets deliver the stretch at the position |
| `LfsSpec.RunAppend` | cs636-base/device/lfs/lflwrite.c:21-28 | a run in two parts has the effects and results of both |
| `LfsSpec.WriteReadBack` | cs636-base/device/lfs/lflread.c:22-38 | seek, write, seek back, read: the bytes written come back |
| `LfsSpec.RefusedSeek` | cs636-base/device/lfs/lflseek.c:25-30 | in any run a seek past the end is refused, and everything after it is as if it had not been made |
| `LfsFile.FileRepFrame` | cs636-base/device/lfs/lfsetup.c:36-119 | a file whose blocks are untouched keeps its contents whatever is written elsewhere |
| `LfsFile.WriteData` | cs636-base/device/lfs/lfflush.c:27-32 | writing the dirty data block back changes no byte of the file |
| `LfsFile.WriteIndex` | cs636-base/device/lfs/lfflush.c:34-39 | writing the dirty index block back changes no byte of the file |
| `LfsFile.NextIndex` | cs636-base/device/lfs/lfsetup.c:82-88 | chaining a new index block keeps the file whole |
| `LfsFile.AllocData` | cs636-base/device/lfs/lfsetup.c:105-109 | entering a new data block keeps the file whole |
| `LfsFile.PlaceByte` | cs636-base/device/lfs/lflputc.c:48-60 | storing through the cached byte pointer changes exactly the byte at the position |
| `LfsSystem.OthersKept` | cs636-base/device/lfs/lfsetup.c:78-114 | a step that writes only blocks of one file leaves every other file, open or closed, as it was |
| `LfsSystem.SystemCore` | cs636-base/device/lfs/lfsetup.c:78-114 | such a step keeps the invariant of the whole file system outside that file |
| `LfsSystem.TakeIndexOwnership` | cs636-base/device/lfs/lfiballoc.c:15-32 | popping the free index list keeps ownership: the block was in no file and is now in one |
| `LfsSystem.TakeDataOwnership` | cs636-base/device/lfs/lfdballoc.c:21-39 | popping the free data list keeps ownership |
| `LfsSteps.FirstIndexStep` | cs636-base/device/lfs/lfsetup.c:51-58 | the state after the first index block has been allocated satisfies the invariant |
| `LfsSteps.NextIndexStep` | cs636-base/device/lfs/lfsetup.c:82-93 | the state after a further index block has been allocated satisfies the invariant |
| `LfsSteps.AllocDataStep` | cs636-base/device/lfs/lfsetup.c:105-114 | the state after a data block has been allocated satisfies the invariant |
| `LfsSteps.PlaceByteStep` | cs636-base/device/lfs/lflputc.c:48-60 | the state after a byte has been stored satisfies the invariant |
| `LfsSteps.ChainBounds` | cs636-base/device/lfs/lfsetup.c:78-94 | chain and data blocks match in number, lie in their areas, and offsets stay below 32 bits |
| `LfsPersist.BlockOwnership` | cs636-base/device/lfs/lfscreate.c:33-71 | in every state the free index list and all chains partition the index blocks, the free data list and all data blocks partition the data area, and following the links on disk visits both free lists in order and ends |
| `LfsPersist.ChainOnDisk` | cs636-base/device/lfs/lfsetup.c:78-94 | following the links on disk visits the chain in order |
| `LfsPersist.CleanFileOnDisk` | cs636-base/device/lfs/lfflush.c:19-39 | with a clean cache each byte is found from the image by directory, index chain and data block |
| `LfsPersist.CleanPersists` | cs636-base/device/lfs/lfflush.c:19-39 | a clean nonempty file reads back whole from the image alone |
| `LfsPersist.CloseStep` | cs636-base/device/lfs/lflclose.c:33-35 | a flushed file may be closed |
| `LfsPersist.OpenStep` | cs636-base/device/lfs/lfsopen.c:153-180 | initialising a free control block for a file that is not open keeps the invariant |
| `LfsPersist.CreateStep` | cs636-base/device/lfs/lfsopen.c:135-144 | adding an empty directory entry keeps the invariant |
| `LfsPersist.RestartStep` | cs636-base/device/lfs/lflclose.c:27-37 | with all files closed and the directory not dirty the disk alone is a valid file system with the same files, but for empty ones at the end of the directory |
| `LfsPersist.AllClosedImage` | cs636-base/device/lfs/lflclose.c:27-37 | with all files closed and the directory written the image is a valid file system by itself |
| `LfsPersist.MountStep` | cs636-base/device/lfs/lfsopen.c:80-96 | reading the directory of a valid image gives the same files, all closed |
| `LfsPersist.BlankImage` | cs636-base/device/lfs/lfscreate.c:40-71 | a directory with two full chains is a valid file system in which everything is free |
| `LfsTruncate.EmptiedIndexOwnership` | cs636-base/device/lfs/lftruncate.c:54-97 | after a truncation exactly the index blocks of the file have joined the free index list, each once |
| `LfsTruncate.EmptiedDataOwnership` | cs636-base/device/lfs/lftruncate.c:62-74 | after a truncation exactly the data blocks of the file have joined the free data list, each once |
| `LfsTruncate.PushStep` | cs636-base/device/lfs/lftruncate.c:64-69 | freeing one data block keeps the state of the walk |
| `LfsTruncate.ClearStep` | cs636-base/device/lfs/lftruncate.c:76-90 | clearing one index block keeps the state of the walk |
| `LfsTruncate.ClearedFreeLists` | cs636-base/device/lfs/lftruncate.c:80-97 | the chain relinked to the old head is the new free index list |
| `LfsTruncate.TruncateStep` | cs636-base/device/lfs/lftruncate.c:39-103 | the state after the walk satisfies the invariant with the file empty |
| `Lfs.LocalFileSystem.FreeDataBlocks` | cs636-base/device/lfs/lftruncate.c:60-74 | the inner loop frees the data blocks of one index block and clears its pointers |
| `Lfs.LocalFileSystem.FreeChain` | cs636-base/device/lfs/lftruncate.c:50-90 | the outer loop ends, because the old free head is in no file, and has dealt with every block |
| `Lfs.LocalFileSystem.FreeAll` | cs636-base/device/lfs/lftruncate.c:39-103 | the splice of the whole chain onto the free list |
| `Lfs.LocalFileSystem.Truncate` | cs636-base/device/lfs/lftruncate.c:24-103 | an open file ends empty at position 0 with all its blocks on the free lists and every other file unchanged; an empty file stays as it is |
| `Lfs.LocalFileSystem.Close` | cs636-base/device/lfs/lflclose.c:17-37 | the control block is free; a nonempty file reads back from the image; the directory entry is on disk exactly if the directory was dirty or it was there before |
| `Lfs.LocalFileSystem.FindBlock` | cs636-base/device/lfs/lfsopen.c:46-78 | refused exactly if the name is open or no control block is free; otherwise the first free one |
| `Lfs.LocalFileSystem.FindName` | cs636-base/device/lfs/lfsopen.c:98-116 | the first entry with the name, or none |
| `Lfs.LocalFileSystem.Open` | cs636-base/device/lfs/lfsopen.c:26-78 | with the directory present: exactly when an open is refused, and then nothing changes; otherwise position 0 of the named file, created empty at the end of the directory if it did not exist; each file is open at most once |
| `Lfs.Mount` | cs636-base/device/lfs/lfsopen.c:80-96 | a directory is taken over exactly if it passes the check of its identifying words, and then with the files of the image, all closed |
| `Lfs.Master.Open` | cs636-base/device/lfs/lfsopen.c:9-185 | the whole of an open: the directory is read and checked at the first one that gets as far, and refused at every one if it fails; exactly when an open is refused, and which files there are afterwards |
| `Lfs.Master.constructor` | cs636-base/device/lfs/lfsinit.c:11-31 | at first no directory is present, whatever the disk holds |
| `LfsDisk.ReversedBytes` | cs636-base/device/lfs/lfscheck.c:24-31 | the shifts and masks give the word with its four bytes in reverse order |
| `LfsCreate.LinkIndexBlocks` | cs636-base/device/lfs/lfscreate.c:52-60 | the index blocks form one chain in order |
| `LfsCreate.LinkDataBlocks` | cs636-base/device/lfs/lfscreate.c:62-71 | the data blocks form one chain in order and the index area is left alone |
| `LfsCreate.Create` | cs636-base/device/lfs/lfscreate.c:10-73 | refused exactly if the index blocks need more than half the disk; otherwise an empty file system whose free chains cover all blocks, with a directory that does not pass the check |
| `LfsCreate.OpenBlank` | cs636-base/device/lfs/lfscreate.c:40-49 | on a disk that has just been formatted every open is refused and the directory stays absent |
| `LfsCreate.LoseEmptyFile` | cs636-base/device/lfs/lfsopen.c:123-148 | on any mounted disk with a free entry: a new file is opened and closed and no sector is written; it is in the directory in memory, and after a restart it cannot be opened as an old file |
| `LfsCapacity.PartitionSize` | cs636-base/device/lfs/lfscreate.c:33-46 | the lists of a partition hold as many numbers as there are |
| `LfsCapacity.BlocksConserved` | cs636-base/device/lfs/lfscreate.c:33-71 | in every state the free lists and the files together have all index blocks and all data blocks of the disk |
| `LfsVolume.TightNeed` | cs636-base/device/lfs/lfsetup.c:74-119 | a file has no index block and no data block more than its bytes need |
| `LfsVolume.RoomFor` | cs636-base/device/lfs/lfdballoc.c:20-24 | if what all files need fits on the disk there is a free block for each that has to be allocated |
| `LfsVolume.ExecKeeps` | cs636-base/device/lfs/lfsopen.c:46-78 | every call keeps each control block within its file and no two at the same file |
| `LfsRuns.SameRefusal` | cs636-base/device/lfs/lfsopen.c:26-148 | an open is refused exactly if it is refused on named byte sequences |
| `LfsRuns.OpenedVolume` | cs636-base/device/lfs/lfsopen.c:98-183 | an open that succeeds takes the first free control block and has the effect on the files that it has on named byte sequences |
| `LfsRuns.RunCommands` | cs636-base/device/lfs/lfsopen.c:9-185 | every run of opens, closes, truncations, puts, gets and seeks on any files and control blocks, whose files fit on the disk, has the results and effects of the same run on named byte sequences |
| `LfsRuns.RunAndRestart` | cs636-base/device/lfs/lflclose.c:9-38 | after every such run that ends with all files closed, a restart finds the files that result, in order, with names and bytes, except empty ones at the end |
| `QuickSort.Alike` | cs636-base/lib/qsort.c:47-90 | elements equal to the pivot compare like it, so any element of the pivot block may be compared with |
| `QuickSort.RotateBytes` | cs636-base/lib/qsort.c:140-162 | the byte loop rotates three elements, also when the second and the third position coincide, the only coincidence that its callers produce |
| `QuickSort.RotatedElems` | cs636-base/lib/qsort.c:140-162 | on elements, the bytewise rotation of three positions is the triple exchange, also when the second and the third coincide |
| `QuickSort.TripleExchange` | cs636-base/lib/qsort.c:140-162 | the three elements change places and the rest of the array does not change |
| `QuickSort.SwapBytes` | cs636-base/lib/qsort.c:116-134 | the byte loop swaps two elements of any size and leaves all other bytes |
| `QuickSort.Exchange` | cs636-base/lib/qsort.c:116-134 | the two elements change places, nothing else does |
| `QuickSort.EqualOnLeft` | cs636-base/lib/qsort.c:55-59 | an equal element found on the left joins the pivot block |
| `QuickSort.LessOnLeft` | cs636-base/lib/qsort.c:60-64 | a smaller element on the left stays |
| `QuickSort.EqualOnRight` | cs636-base/lib/qsort.c:70-74 | an equal element found on the right joins the pivot block |
| `QuickSort.GreaterOnRight` | cs636-base/lib/qsort.c:88-89 | a larger element on the right stays |
| `QuickSort.BlockUp` | cs636-base/lib/qsort.c:77-82 | with the left side done the pivot block moves up by a triple exchange |
| `QuickSort.ChangePlaces` | cs636-base/lib/qsort.c:83-86 | a larger element on the left and a smaller on the right change places |
| `QuickSort.BlockDown` | cs636-base/lib/qsort.c:107-108 | with the right side done the pivot block moves down by a triple exchange |
| `QuickSort.Sorter.ScanRight` | cs636-base/lib/qsort.c:67-90 | the inner loop keeps the partition and shrinks what is not yet compared |
| `QuickSort.Sorter.Partition` | cs636-base/lib/qsort.c:47-109 | the loop ends with smaller, equal and larger elements exactly at [a, lp), [lp, hp] and (hp, l), a permutation of before |
| `QuickSort.SettleRight` | cs636-base/lib/qsort.c:94-98 | a sorted right side beyond the pivot block is final |
| `QuickSort.SettleLeft` | cs636-base/lib/qsort.c:99-103 | a sorted left side before the pivot block is final |
| `QuickSort.Sorter.PartitionAndNest` | cs636-base/lib/qsort.c:92-104 | the nested call gets the side that is no larger, and one side is sorted when it returns |
| `QuickSort.Sorter.Qs1` | cs636-base/lib/qsort.c:29-110 | the range is sorted, a permutation, nothing outside it changes, and 2 to the depth of recursion is at most its length plus one |
| `QuickSort.Qsort` | cs636-base/lib/qsort.c:13-23 | for any total preorder and element size: sorted, a permutation, bytes behind the array kept, depth of recursion logarithmic |
| `HeapModel.RoundMbExact` | cs636-base/include/memory.h:9 | rounding to multiples of 8 loses nothing exactly if the size is at most 2^32 - 8 |
| `HeapModel.CanonicalUnique` | cs636-base/system/freemem.c:28-67 | an ordered list of non-adjacent blocks is determined by its set of free bytes |
| `HeapModel.CarveMeaning` | cs636-base/system/getmem.c:24-46 | taking bytes from the bottom or top of a block removes exactly that range, keeps the list canonical and lowers the sum by exactly the size |
| `HeapModel.TouchesExact` | cs636-base/system/freemem.c:41-47 | looking at the two neighbours detects an overlap with free memory exactly |
| `HeapModel.ReleaseMeaning` | cs636-base/system/freemem.c:49-67 | releasing a range that is not free adds exactly its bytes, keeps the list canonical and raises the sum by exactly the size |
| `HeapModel.FreeUndoesGet` | cs636-base/system/getmem.c:24-46 | freemem after getmem restores the list exactly |
| `HeapModel.FreeUndoesGetStk` | cs636-base/include/memory.h:16-19 | freestk after getstk restores the list exactly |
| `HeapModel.GetMemTakes` | cs636-base/system/getmem.c:24-46 | what getmem hands out is free no more exactly if the size is at most 2^32 - 8; above that nothing is taken from the list |
| `HeapModel.GetStkTakes` | cs636-base/system/getstk.c:30-51 | the same for getstk, which hands out the top of a block |
| `HeapModel.ReleasesCommute` | cs636-base/system/freemem.c:28-67 | the order of two frees does not matter |
| `Heap.Unlinked` | cs636-base/system/getmem.c:29-30 | unlinking an exact match leaves the links of the shorter list |
| `Heap.Replaced` | cs636-base/system/getmem.c:35-40 | the links after a block has been split |
| `Heap.InsertedLinks` | cs636-base/system/freemem.c:57-59 | the links after a new block has been inserted |
| `Heap.MergedLinks` | cs636-base/system/freemem.c:64-67 | the links after a block has swallowed its right neighbour |
| `Heap.JoinedSteps` | cs636-base/system/freemem.c:51-67 | coalescing left, then right, gives the joined list in all four cases |
| `Heap.FreeList.GetMem` | cs636-base/system/getmem.c:16-49 | first fit from the bottom; fails exactly if the size is 0 or no block is large enough, and then nothing changes; the recorded total stays the sum of lengths |
| `Heap.FreeList.FindLast` | cs636-base/system/getstk.c:26-37 | the scan remembers the last block that is large enough, and the header before it |
| `Heap.FreeList.GetStk` | cs636-base/system/getstk.c:17-51 | last fit from the top, the highest word is returned; fails exactly if the size is 0 or no block is large enough |
| `Heap.FreeList.LinkRange` | cs636-base/system/freemem.c:49-69 | the range is linked in, joined with its neighbours, and the list stays canonical |
| `Heap.FreeList.FindPlace` | cs636-base/system/freemem.c:28-33 | the walk ends at the neighbours between which the address lies |
| `Heap.FreeList.FreeMem` | cs636-base/system/freemem.c:18-69 | refused exactly if empty, outside the heap or overlapping free memory, and then nothing changes; otherwise the released list |
| `Heap.FreeList.FreeStk` | cs636-base/include/memory.h:16-19 | frees the range whose highest word getstk returned, rounding the size once |
| `HeapRuns.TakenApart` | cs636-base/system/getmem.c:24-46 | a range taken from free memory meets no live allocation |
| `HeapRuns.NeverRefused` | cs636-base/system/freemem.c:35-47 | in every run freemem never refuses a live allocation: it is not empty, lies in the heap, and touches no free memory |
| `HeapRuns.RunConsistent` | cs636-base/system/freemem.c:28-67 | over every run of getmem, getstk and freemem no byte is lost, handed out twice, or both free and live, and the lengths add up |
| `HeapRuns.HistoryIrrelevant` | cs636-base/system/freemem.c:28-67 | the free list depends only on which bytes are live, not on the order of calls |
| `HeapRuns.AllFreed` | cs636-base/system/freemem.c:28-67 | when everything has been given back the list is what it was at first |
| `QueueTable.LinkedInLinks` | cs636-base/system/insert.c:28-34 | linking a process in between two entries gives a well-formed list in both directions with it in that place |
| `QueueTable.LinkedOutLinks` | cs636-base/system/getitem.c:53-57 | unlinking a process from anywhere gives a well-formed list without it |
| `QueueTable.InsertKeeps` | cs636-base/system/queue.c:22-30 | an insertion keeps all lists of the table linked and disjoint |
| `QueueTable.RemoveKeeps` | cs636-base/system/getitem.c:53-57 | a removal keeps all lists of the table linked and disjoint |
| `KernelQueues.Queues.NewQueue` | cs636-base/system/newqueue.c:11-29 | one more empty list, or an error exactly when the table is used up |
| `KernelQueues.Queues.Enqueue` | cs636-base/system/queue.c:16-29 | the process joins at the end of that list; all others and all keys stay |
| `KernelQueues.Queues.Dequeue` | cs636-base/system/queue.c:40-51 | the first process leaves, or EMPTY exactly if there is none |
| `KernelQueues.Queues.GetFirst` | cs636-base/system/getitem.c:14-21 | the first process leaves, or EMPTY exactly if there is none |
| `KernelQueues.Queues.GetLast` | cs636-base/system/getitem.c:33-40 | the last process leaves, or EMPTY exactly if there is none |
| `KernelQueues.Queues.GetItem` | cs636-base/system/getitem.c:51-57 | the process leaves its list and is on none |
| `KernelQueues.Queues.Insert` | cs636-base/system/insert.c:14-34 | the process stands behind exactly the leading keys that are no smaller; the tail key ends the search |
| `KernelQueues.Queues.InsertD` | cs636-base/system/insertd.c:18-41 | the process and its key stand where the delta list wants them, and the keys of other lists stay |
| `DeltaList.InsertDelayExact` | cs636-base/system/insertd.c:22-39 | the newcomer is due after exactly its delay, behind everyone due no later, and nobody else's deadline changes |
| `DeltaList.DropDelayExact` | cs636-base/system/unsleep.c:37-44 | removing a sleeper changes nobody else's deadline |
| `DeltaList.TickExact` | cs636-base/system/clkhandler.c:36-44 | a tick lowers every deadline by exactly one and drops exactly those that reach zero, if the first delay is positive |
| `DeltaList.TickLost` | cs636-base/system/recvtime.c:24-31 | if the first delay is zero, which only recvtime(0) can enter, the tick is lost on everyone who stays asleep |
| `KernelModel.InsertReadyOrder` | cs636-base/system/insert.c:22-34 | a newcomer stands behind every process of at least its priority and ahead of all others, and nobody else changes places |
| `KernelModel.NullReady` | cs636-base/system/resched.c:38-40 | when the running process blocks, the null process is ready, so resched never dequeues an empty list |
| `KernelModel.ReschedKeeps` | cs636-base/system/resched.c:11-49 | every process stays on the list its state names, one process runs, and unless put off nothing ready outranks it |
| `KernelMoves.IdleMove` | cs636-base/system/receive.c:17-20 | a running or idle process may become idle |
| `KernelMoves.AwakenedMove` | cs636-base/system/ready.c:15-28 | a process leaves the list its state names and is on the ready list only |
| `KernelMoves.LeaveMove` | cs636-base/system/kill.c:34-55 | a process leaves whichever list its state names |
| `KernelMoves.WaitMove` | cs636-base/system/wait.c:29-34 | a process joins the queue that its prsem names |
| `KernelMoves.SleepMove` | cs636-base/system/sleep.c:43-50 | a process joins the sleepers |
| `KernelCalls.SignalOnceCore` | cs636-base/system/signal.c:26-28 | one count up; the first waiter goes exactly if the count was negative; the queue stays as long as the count is below zero |
| `KernelCalls.SignalLoopCore` | cs636-base/system/signaln.c:28-34 | n counts up, and the first waiters go in order, as many as were owed but at most n |
| `KernelCalls.DrainLoopCore` | cs636-base/system/semreset.c:27-32 | all waiters go in order of arrival |
| `KernelCalls.DeleteLoopCore` | cs636-base/system/semdelete.c:27-33 | counting up to zero releases exactly all waiters |
| `KernelCalls.WakeDueCore` | cs636-base/system/wakeup.c:13-19 | exactly the leading sleepers with no delay left are made ready |
| `KernelRuns.WaitKeeps` | cs636-base/system/wait.c:17-39 | the invariant of the kernel after wait |
| `KernelRuns.SemResetKeeps` | cs636-base/system/semreset.c:19-34 | the invariant after semreset, which sets the count only after releasing everybody |
| `KernelRuns.SemDeleteKeeps` | cs636-base/system/semdelete.c:16-35 | the invariant after semdelete |
| `KernelRuns.SendKeeps` | cs636-base/system/send.c:17-40 | the invariant after send; a timed receiver leaves the sleepers without moving anyone's deadline |
| `KernelRuns.KillKeeps` | cs636-base/system/kill.c:34-55 | the invariant after kill, in every state of the victim |
| `KernelRuns.TickKeeps` | cs636-base/system/clkhandler.c:34-44 | the invariant after the clock has served the sleepers |
| `KernelRuns.StepKeeps` | cs636-base/system/resched.c:11-80 | every call and interrupt keeps: lists and states agree, one process runs, the null process is running or ready, semaphore counts match queues, delays are sound, nothing ready outranks the running process unless a reschedule is put off |
| `KernelEffects.ReschedEffect` | cs636-base/system/resched.c:18-49 | the processor goes to the first of the ready list exactly if that one ranks at least as high as the running process and rescheduling is not put off; everybody else at most changes between running and ready |
| `KernelEffects.WaitEffect` | cs636-base/system/wait.c:18-38 | wait takes one unit; with none to be had the caller is at the end of the queue in state WAIT, and the first of the ready list runs; for a bad semaphore nothing changes |
| `KernelEffects.SignalEffect` | cs636-base/system/signal.c:17-30 | signal gives one unit back: the first waiter, if any, can run and has left the queue, and nobody else's state changes |
| `KernelEffects.SignalNEffect` | cs636-base/system/signaln.c:18-36 | signaln gives n units: the first n waiters, or all, can run |
| `KernelEffects.SemCreateEffect` | cs636-base/system/semcreate.c:20-27 | the new semaphore has the count asked for and nobody waits |
| `KernelEffects.SemResetEffect` | cs636-base/system/semreset.c:21-34 | everybody waiting can run and the count is the new one |
| `KernelEffects.SemDeleteEffect` | cs636-base/system/semdelete.c:17-35 | everybody waiting can run and the entry is free |
| `KernelEffects.SendEffect` | cs636-base/system/send.c:17-40 | refused, with no change, exactly if the id is bad or a message has not been taken; otherwise the recipient has this message, and can run if it waited for one |
| `KernelEffects.ReceiveEffect` | cs636-base/system/receive.c:15-20 | nothing changes if there is a message; otherwise the caller waits in state RECV and the first of the ready list runs |
| `KernelEffects.TakeEffect` | cs636-base/system/receive.c:21-22 | taking the message clears the flag and nothing else |
| `KernelEffects.RecvTimeEffect` | cs636-base/system/recvtime.c:17-32 | as receive, in state RECTIM and among the sleepers with that delay; negative delays change nothing |
| `KernelEffects.SleepMsEffect` | cs636-base/system/sleep.c:32-52 | negative delays change nothing, zero yields, others put the caller among the sleepers in state SLEEP |
| `KernelEffects.SuspendEffect` | cs636-base/system/suspend.c:18-40 | exactly a process that runs or is ready is stopped; it is in state SUSP and on no list |
| `KernelEffects.ResumeEffect` | cs636-base/system/resume.c:18-30 | exactly a suspended process can run again |
| `KernelEffects.KillEffect` | cs636-base/system/kill.c:18-57 | the process is free and off its list; a waiter gives its unit back; a sleeper's delay passes on; nobody else changes |
| `KernelEffects.CreateEffect` | cs636-base/system/create.c:32-48 | a suspended process with that priority and no message; nothing else changes |
| `KernelEffects.YieldEffect` | cs636-base/system/yield.c:13-16 | the running process gives way exactly to an equal that is first on the ready list |
| `KernelEffects.DeferEffect` | cs636-base/system/resched.c:61-74 | deferrals are counted, and at the last end a reschedule that was put off happens |
| `KernelEffects.PreemptEffect` | cs636-base/system/clkhandler.c:49-52 | an interrupt takes one from the slice; at its end the processor is offered to the others |
| `KernelEffects.TickEffect` | cs636-base/system/clkhandler.c:36-44 | a tick takes one from the first delay, and exactly the sleepers at the front with none left can run |
| `KernelSemaphores.CountStep` | cs636-base/system/wait.c:29-35 | in one step of any kind the count of a semaphore falls by one for a wait on it and rises by what is signalled and by one for a waiter killed |
| `KernelSemaphores.UnitsConserved` | cs636-base/system/signal.c:26-28 | over every run in which a semaphore is not reset or deleted, its count is the first one plus the units signalled minus the waits plus the waiters killed |
| `KernelSemaphores.UnitsGranted` | cs636-base/system/wait.c:29-38 | of the waits on a semaphore exactly so many have gone through as were asked for or, if fewer, as there were units |
| `KernelMessages.BoxStep` | cs636-base/system/send.c:23-29 | in one step of any kind the message box of a process is filled by a send if it is empty, emptied by its receive, and otherwise left alone |
| `KernelMessages.PostExact` | cs636-base/system/receive.c:17-24 | over every run the messages a process takes are, one after the other, the first sent to it since it last took one |
| `KernelMessages.MessageStays` | cs636-base/system/send.c:23-29 | over every run a message not yet taken stays as it is, whatever else is sent |
| `KernelOrder.StepFair` | cs636-base/system/resched.c:18-44 | in every step, while a process stays ready nobody of no higher priority that stands behind it or becomes ready is dispatched or gets ahead of it |
| `KernelOrder.FirstReadyFirst` | cs636-base/system/ready.c:11-29 | over every run: of two processes the second of no higher priority, the one made ready first is dispatched first as long as it stays ready |
| `KernelOrder.SliceEnds` | cs636-base/system/clkhandler.c:46-52 | after as many clock interrupts as the slice has left an equal that is first on the ready list runs |
| `KernelOrder.StepInTurn` | cs636-base/system/signal.c:26-28 | in every step, waiters of a semaphore leave in order of arrival, except one that is killed |
| `KernelTime.BootInv` | cs636-base/system/initialize.c:172-216 | the first state satisfies the invariant |
| `KernelTime.RemainingEntered` | cs636-base/system/insertd.c:22-39 | a new sleeper has exactly its delay left, everyone else what they had |
| `KernelTime.RemainingDropped` | cs636-base/system/unsleep.c:37-44 | everyone but the process removed has what they had left |
| `KernelTime.RemainingTicked` | cs636-base/system/clkhandler.c:34-44 | a tick takes exactly one from everyone's remaining time and wakes exactly those that had one left |
| `KernelTime.SleepStep` | cs636-base/system/sleep.c:26-53 | no step but a tick changes a sleeper's remaining time, and the sleeper leaves exactly if it is killed or is sent a message it waits for |
| `KernelTime.WakesOnTime` | cs636-base/system/wakeup.c:13-19 | over every run, a sleeper is asleep throughout exactly if nobody kills it or sends it a message it waits for, and fewer ticks have passed than it had left that found no zero delay in front |
| `KernelTime.EveryTickCounts` | cs636-base/system/clkhandler.c:36-44 | over every run without recvtime(0) that starts with nobody due, no tick is lost |
| `KernelTime.ZeroEntered` | cs636-base/system/recvtime.c:24-31 | recvtime(0) without a message puts a zero delay in front |
| `KernelTime.TickLostOn` | cs636-base/system/clkhandler.c:36-44 | a tick that finds a zero delay in front wakes those due already and takes nothing from anybody else |
| `KernelTime.TickStolen` | cs636-base/system/recvtime.c:24-31 | whoever calls recvtime(0) without a message steals the next tick from every sleeper not due yet |
| `KernelTime.LostFromBoot` | cs636-base/system/recvtime.c:24-31 | a run from the first state in which one tick passes and the sleeper has as much left as before |
| `KernelTime.SleepsFor` | cs636-base/system/sleep.c:26-53 | after sleepms the caller has exactly its delay left |
| `Kernel.Kernel.constructor` | cs636-base/system/initialize.c:172-216 | the tables stand for the first state |
| `Kernel.Kernel.Resched` | cs636-base/system/resched.c:11-49 | the tables take the step of the scheduler |
| `Kernel.Kernel.Ready` | cs636-base/system/ready.c:15-28 | the process is inserted by priority and the processor rescheduled; refused for bad ids |
| `Kernel.Kernel.StopDeferral` | cs636-base/system/resched.c:67-76 | a reschedule that was put off happens when the last deferral ends; refused without a deferral |
| `Kernel.Kernel.Wait` | cs636-base/system/wait.c:9-39 | the tables take the step of wait, or refuse exactly for bad semaphores |
| `Kernel.Kernel.Signal` | cs636-base/system/signal.c:9-31 | the tables take the step of signal, or refuse exactly for bad semaphores |
| `Kernel.Kernel.SignalN` | cs636-base/system/signaln.c:9-37 | the loop takes the step of n signals with one reschedule at the end |
| `Kernel.Kernel.SemReset` | cs636-base/system/semreset.c:9-35 | the loop takes the step of semreset |
| `Kernel.Kernel.SemDelete` | cs636-base/system/semdelete.c:9-36 | the loop takes the step of semdelete |
| `Kernel.Kernel.NewSem` | cs636-base/system/semcreate.c:34-50 | fails exactly if every entry is used; otherwise one free entry is marked |
| `Kernel.Kernel.SemCreate` | cs636-base/system/semcreate.c:11-28 | fails exactly for a negative count or a full table |
| `Kernel.Kernel.Unsleep` | cs636-base/system/unsleep.c:11-47 | refused exactly unless the process sleeps; the process behind takes over the delay |
| `Kernel.Kernel.Send` | cs636-base/system/send.c:9-41 | refused exactly for bad ids or an untaken message; wakes a waiting recipient |
| `Kernel.Kernel.Receive` | cs636-base/system/receive.c:15-20 | blocks exactly if there is no message |
| `Kernel.Kernel.ReceiveResumed` | cs636-base/system/receive.c:21-24 | the message is taken and the flag cleared |
| `Kernel.Kernel.RecvTime` | cs636-base/system/recvtime.c:17-32 | sleeps in the timed state exactly if there is no message |
| `Kernel.Kernel.RecvTimeResumed` | cs636-base/system/recvtime.c:34-43 | the message, or word of the time-out exactly if there is none |
| `Kernel.Kernel.SleepMs` | cs636-base/system/sleep.c:26-53 | negative delays are refused, zero yields, others put the caller among the sleepers |
| `Kernel.Kernel.Sleep` | cs636-base/system/sleep.c:11-20 | seconds within the limit become milliseconds |
| `Kernel.Kernel.Suspend` | cs636-base/system/suspend.c:9-41 | refused exactly unless the process runs or is ready |
| `Kernel.Kernel.Resume` | cs636-base/system/resume.c:9-31 | refused exactly unless the process is suspended |
| `Kernel.Kernel.Kill` | cs636-base/system/kill.c:17-58 | the victim leaves its list and is free; a waiter is taken back from its semaphore's count |
| `Kernel.Kernel.Create` | cs636-base/system/create.c:33-54 | a free entry becomes a suspended process of the given priority; refused exactly for priorities below 1 or a full table |
| `Kernel.Kernel.Wakeup` | cs636-base/system/wakeup.c:9-19 | the loop makes all due sleepers ready with one reschedule at the end |
| `Kernel.Kernel.ClockTick` | cs636-base/system/clkhandler.c:34-44 | the tables take the step of a tick |
| `Kernel.Kernel.ClockPreempt` | cs636-base/system/clkhandler.c:46-52 | the end of a time slice reschedules |
| `PortSteps.SignalBy` | cs636-base/system/signal.c:26-28 | a signal hands one unit to a waiting process, which is thereby released, or to the count |
| `PortSteps.PutOk` | cs636-base/system/ptsend.c:36-58 | a sender with a token completes: port in balance, one node less free |
| `PortSteps.GetOk` | cs636-base/system/ptrecv.c:35-47 | a receiver with a token finds a message and completes: port in balance, one node more free |
| `PortRuns.MessageThere` | cs636-base/system/ptrecv.c:28-39 | a released receiver whose call is current, or one that takes a token, always finds a message |
| `PortRuns.SendStartKeeps` | cs636-base/system/ptsend.c:20-58 | the invariant after the first step of ptsend |
| `PortRuns.RecvStartKeeps` | cs636-base/system/ptrecv.c:19-47 | the invariant after the first step of ptrecv |
| `PortRuns.ResumeKeeps` | cs636-base/system/ptsend.c:30-58 | the invariant after a released process has gone on |
| `PortRuns.ClearStartKeeps` | cs636-base/system/ptclear.c:19-46 | the invariant while a port is in limbo with its messages gone and its senders released |
| `PortRuns.ClearMiddleKeeps` | cs636-base/system/ptclear.c:40-47 | the invariant after the receivers have been released |
| `PortRuns.ClearEndKeeps` | cs636-base/system/ptclear.c:48-49 | the invariant when the port leaves limbo |
| `PortRuns.NextKeeps` | cs636-base/system/ptclear.c:11-50 | every step of every interleaving keeps: room is tokens plus released senders plus messages, messages are tokens plus released receivers, and waiters and queues agree |
| `PortProperties.InitInv` | cs636-base/system/ptinit.c:22-44 | the first state satisfies the invariant |
| `PortProperties.RunPromises` | cs636-base/system/ptsend.c:27-58 | in every run a port holds at most its room, its messages come out in the order they went in, and free plus queued nodes stay constant |
| `PortHistory.HistoryStep` | cs636-base/system/ptsend.c:40-57 | in one step of any kind exactly the argument of a send that goes through is added to what was sent on the port, and exactly the message that a receiver gets to what was got; a new number starts afresh |
| `PortHistory.FirstInFirstOut` | cs636-base/system/ptrecv.c:35-47 | over every interleaving: what receivers have got on an allocated port, followed by what is queued, is the arguments of the sends that went through since its number last changed, in order |
| `PortHistory.WaitersInTurn` | cs636-base/system/ptsend.c:29-32 | over every run senders, and receivers, go on in the order in which they began to wait |
| `PortHistory.LifeStep` | cs636-base/system/ptclear.c:18-49 | which steps take a port from free to allocated, through limbo, and back to allocated after a reset or to free after a deletion; when its number goes up; the tokens it is made with |
| `PortProperties.NoLostWakeup` | cs636-base/system/ptrecv.c:26-46 | if senders wait and none is released the port is full; if receivers wait and none is released it is empty |
| `PortProperties.StaleFails` | cs636-base/system/ptsend.c:29-35 | in every run, an overtaken call fails when it goes on and touches neither the port nor the free nodes |
| `PortProperties.OvertakenFails` | cs636-base/system/ptclear.c:21-24 | a reset or deletion makes every call on the port fail when it goes on, however long that takes, without touching port or nodes |
| `PortProperties.RoomLost` | cs636-base/system/ptclear.c:40-43 | a legal run from the first state: a port made for 65536 messages has no room after a reset, and a sender waits although no message is queued |
| `PortProperties.RoomAfterReset` | cs636-base/system/ptclear.c:40-43 | over every run in which a port is not deleted it has the room it was created with exactly if it is never reset or the count fits 16 bits |
| `PortProperties.NodeThere` | cs636-base/system/ptsend.c:36-38 | a sender with a token finds a free node if the rooms of all ports do not exceed the nodes |
| `PortNodes.AppendChain` | cs636-base/system/ptsend.c:42-55 | linking behind the tail adds the node and its message at the end |
| `PortNodes.JoinChain` | cs636-base/system/ptclear.c:34-38 | linking the tail to the free head splices the two lists |
| `PortNodes.SeparateClear` | cs636-base/system/ptclear.c:34-38 | the splice leaves no node in two lists |
| `Ports.PortTable.constructor` | cs636-base/system/ptinit.c:22-44 | all ports free and all nodes in the free list |
| `Ports.PortTable.Deposit` | cs636-base/system/ptsend.c:40-58 | the node leaves the free list, joins the end of the port's list, and the receivers are signalled |
| `Ports.PortTable.Withdraw` | cs636-base/system/ptrecv.c:35-47 | the first message is returned, its node joins the free list, and the senders are signalled |
| `Ports.PortTable.PtSend` | cs636-base/system/ptsend.c:20-58 | the tables take the first step of ptsend: refused, waiting, or complete |
| `Ports.PortTable.PtSendResume` | cs636-base/system/ptsend.c:30-58 | the tables take the second step: refused exactly if the port was reset, deleted or is in limbo |
| `Ports.PortTable.PtRecv` | cs636-base/system/ptrecv.c:19-47 | the tables take the first step of ptrecv |
| `Ports.PortTable.PtRecvResume` | cs636-base/system/ptrecv.c:29-47 | the tables take the second step: refused exactly if the port was reset, deleted or is in limbo |
| `Ports.PortTable.ClearBegin` | cs636-base/system/ptclear.c:19-45 | refused unless allocated; limbo, new number, messages to the free list, senders released |
| `Ports.PortTable.ClearSecond` | cs636-base/system/ptclear.c:40-47 | receivers released |
| `Ports.PortTable.ClearFinish` | cs636-base/system/ptdelete.c:23-26 | the new state, and after a deletion the port is the next to be tried |
| `Ports.PortTable.PtCreate` | cs636-base/system/ptcreate.c:18-45 | fails exactly for negative counts or if no port is free; otherwise the first free port around the table is set up and the search goes on behind it next time |
| `Fragments.CheckLength` | cs636-base/net/sendto.c:157-167 | lengths above 8 become the next lower multiple of 8, others stay |
| `Fragments.FieldRoundTrip` | cs636-base/net/sendto.c:286-303 | the M flag is read back as sent, the offset exactly if it is a multiple of 8 |
| `Fragments.SendFragment` | cs636-base/net/sendto.c:169-182 | a fragment carries its stretch of the payload and the addresses of the datagram, its M flag reads back, its offset reads back exactly if it is a multiple of 8, and on the sender's arguments it is the fragment of that stretch |
| `Fragments.AllButTwo` | cs636-base/net/sendto.c:103-113 | only the rest that does not fit a fragment is cut down to whole octet groups, so all pieces but the last two are as long as fits |
| `Fragments.FragmentDatagram` | cs636-base/net/sendto.c:87-144 | the loop ends and cuts the payload into fragments that fit the MTU, all but the last two of them as long as fits in whole octet groups; all offset fields are right exactly if the MTU is at least 56; a datagram that fits the MTU is not sent at all |
| `Fragments.SentWhole` | cs636-base/net/sendto.c:107-128 | the chunks concatenate to the payload, and M is clear on the last fragment only |
| `FragmentOrder.InsertSorted` | cs636-base/net/reassembly.c:311-354 | a fragment that overlaps nothing is put in order exactly if at most three queued ones belong behind it |
| `FragmentOrder.QueueSorted` | cs636-base/net/reassembly.c:311-354 | the queue ends up in order exactly if no fragment came after more than three that belong behind it |
| `FragmentOrder.JoinedSlices` | cs636-base/net/reassembly.c:155-169 | a queue without gaps holds a beginning of the payload |
| `FragmentOrder.WholePayload` | cs636-base/net/reassembly.c:155-169 | a queue without gaps that has the last fragment holds the whole payload |
| `FragmentOrder.ReorderingExact` | cs636-base/net/reassembly.c:311-354 | the fragments of a payload, each once in any order, join without a gap exactly if the reordering was mild, and then to the payload |
| `FragmentList.FragList.LinkAfter` | cs636-base/net/reassembly.c:338-350 | the ring of nodes with the new one in its place, well formed in both directions, the sentinel's first links included |
| `FragmentList.FragList.InsertNode` | cs636-base/net/reassembly.c:311-354 | the search back over at most three nodes puts the fragment where the model says |
| `FragmentList.FragList.CopyPayload` | cs636-base/net/reassembly.c:155-169 | succeeds exactly if the fragments join without a gap, and the 16-bit sum never wraps |
| `FragmentList.FragList.FreeNodes` | cs636-base/net/ipv6.c:357-373 | every node is freed once, the sentinel last |
| `ReassemblyModel.ReceiveSafe` | cs636-base/net/reassembly.c:21-87 | whatever is handed on is the datagram that was sent, base header and payload in full |
| `ReassemblyModel.RunSafe` | cs636-base/net/reassembly.c:21-87 | for any loss, duplication, reordering and interleaving of fragments and any time-outs only datagrams that were sent are handed on |
| `ReassemblyModel.LookupExact` | cs636-base/net/reassembly.c:356-370 | all entries are found exactly if they fill the first places of the table |
| `ReassemblyModel.HiddenEntry` | cs636-base/net/reassembly.c:356-370 | one entry behind one hole is not found |
| `FragmentTransfer.RoundTrip` | cs636-base/net/reassembly.c:270-354 | fragments of the send loop for an MTU of at least 56, first first and last last, rebuild payload and header exactly if no fragment comes after more than three that belong behind it |
| `FragmentLoss.NotWhole` | cs636-base/net/reassembly.c:155-169 | a queue that has the last fragment but misses another is not joined |
| `FragmentLoss.SpoiledStep` | cs636-base/net/reassembly.c:21-87 | whatever event there is, an entry that holds the same bytes twice stays unless it has timed out, and nothing is handed on from it |
| `FragmentLoss.SpoiledRun` | cs636-base/net/reassembly.c:155-169 | over every run of arrivals of any datagrams and checks for time-outs such an entry stays exactly until the first check that finds it overdue |
| `FragmentLoss.SecondCopy` | cs636-base/net/reassembly.c:311-354 | in any table, a second copy of a queued fragment hands nothing on, and its entry stays from then on and is never handed on, exactly until its time-out |
| `FragmentLoss.LostBehindHole` | cs636-base/net/reassembly.c:356-370 | a run: two datagrams begin, the first times out, and whatever else comes in of the second is not handed on |
| `FragmentRuns.StretchExact` | cs636-base/net/reassembly.c:155-169 | with the last fragment queued, the queue joins exactly if each fragment came once and mildly reordered |
| `FragmentRuns.OneMore` | cs636-base/net/reassembly.c:51-79 | an arrival for an entry hands the datagram on and frees the entry exactly if it is the last fragment and the queue joins; otherwise it is queued |
| `FragmentRuns.RunExact` | cs636-base/net/reassembly.c:21-87 | from the empty table, what is handed on over every sequence of arrivals of one datagram, with repetitions and omissions, and of checks for time-outs |
| `FragmentRuns.EveryRun` | cs636-base/net/reassembly.c:21-87 | for fragments of the send loop for an MTU of at least 56, over every such sequence: each stretch from an opening first fragment to the next last one hands the datagram on exactly if it has every fragment once and mildly reordered; otherwise nothing more is handed on until the entry has timed out |
| `FragmentRuns.AnyOrder` | cs636-base/net/reassembly.c:21-87 | each fragment once in any order: the datagram is rebuilt exactly if the first comes first, the last last, and none after more than three that belong behind it; otherwise nothing is handed on |
| `FragmentMixed.FoundArrival` | cs636-base/net/reassembly.c:49-79 | in any table, an arrival for an entry at any place hands the datagram on and frees the place exactly if M is clear and the queue with it has no gap; otherwise it is queued there; every other place stays |
| `FragmentMixed.NewArrival` | cs636-base/net/reassembly.c:34-48 | in any table, an arrival without an entry takes the first free place if it is a first fragment; otherwise nothing changes |
| `FragmentMixed.KeysApart` | cs636-base/net/reassembly.c:356-370 | over every run of fragments of any datagrams and checks for time-outs, what is handed on for one key, as long as its entry is found, is what its own arrivals would give alone |
| `FragmentMixed.PackedServed` | cs636-base/net/reassembly.c:356-370 | where entries fill the first places and one place is left, every key is served |
| `FragmentMixed.EveryMix` | cs636-base/net/reassembly.c:21-87 | for fragments of the send loop for an MTU of at least 56 that come in among any others, from any table without an entry for them: the datagram is handed on exactly as often as the order of its own fragments says, as long as its entry is found |
| `Reassembly.Reassembler.CheckReassemblyTable` | cs636-base/net/reassembly.c:356-370 | the first entry with the key among as many places as there are entries |
| `Reassembly.Reassembler.FindHole` | cs636-base/net/reassembly.c:246-259 | the first free place, or -1 exactly if there is none |
| `Reassembly.Reassembler.InsertFragList` | cs636-base/net/reassembly.c:270-296 | the payload is copied into a new node that is queued |
| `Reassembly.Reassembler.AppendReaTable` | cs636-base/net/reassembly.c:208-244 | a new entry with the first fragment's headers in the first free place, or nothing if the table is full |
| `Reassembly.Reassembler.RemoveReaEntry` | cs636-base/net/ipv6.c:357-377 | the entry is cleared, the count lowered, every node of its list freed once |
| `Reassembly.Reassembler.CopyToDatagram` | cs636-base/net/reassembly.c:155-197 | the payload and the restored headers, exactly if the queue has no gap |
| `Reassembly.Reassembler.Reassemble` | cs636-base/net/reassembly.c:21-87 | the table in memory takes the step of the model and hands on what it hands on |
| `Reassembly.Reassembler.CheckReassemblyTimeOut` | cs636-base/net/ipv6.c:342-355 | exactly the entries that are 15 seconds old are removed |
| `Forwarding.BestIsLongest` | cs636-base/net/fwdipv6.c:11-31 | the route chosen by folding over the insertions is a longest match, the earliest among equals, and none exactly if no entry with a nonzero prefix matches |
| `Forwarding.OrderedUnique` | cs636-base/net/fwdipv6.c:106-120 | the entries alone determine the sorted pointer table |
| `Forwarding.StableSwap` | cs636-base/net/fwdipv6.c:113-117 | exchanging neighbours with different prefix lengths keeps equals in order |
| `Forwarding.SortedAfterInsert` | cs636-base/net/fwdipv6.c:123-145 | after an insertion the sort raises the new pointer past the shorter prefixes and moves nothing else |
| `Forwarding.KeptAfterInsert` | cs636-base/net/fwdipv6.c:123-145 | used entries stay ahead of free ones, each slot has one pointer, order is by prefix and age |
| `Forwarding.ForwardingTable.Match` | cs636-base/net/fwdipv6.c:33-42 | 1 exactly if the first len bytes agree |
| `Forwarding.ForwardingTable.GetNextHop` | cs636-base/net/fwdipv6.c:11-31 | the scan with its early exit returns the best route of all, or -1 exactly if no entry with a nonzero prefix matches |
| `Forwarding.ForwardingTable.GetNextAvailFwdIndex` | cs636-base/net/fwdipv6.c:44-52 | the number of routes, or -1 exactly if the table is full |
| `Forwarding.ForwardingTable.SortFwdTab` | cs636-base/net/fwdipv6.c:106-120 | a stable sort of the pointers by descending prefix length |
| `Forwarding.ForwardingTable.InsertNewFwdTabEntry` | cs636-base/net/fwdipv6.c:123-145 | -1 exactly if full, and then nothing changes; otherwise one more route, the youngest, with its pointer raised past shorter prefixes |

## Left out

* All printing, the shell, device tables, the hardware and boot code, interrupt masks, `ctxsw`.
* Remote disk and remote file drivers, UDP, DNS, NTP, NAT, ICMP and neighbour discovery, the tty driver.
* Local file system: the mutexes (operations are sequential), the parsing of mode strings
  (the mode is a parameter), the read and write permission bits, the loops that copy and compare
  names, the control functions, and the byte layout of the directory sector, which is a record here.
  Errors of the disk driver are left out. The panics for want of blocks are preconditions on the free
  lists. The check that `lftruncate`'s caller makes for an open file is part of `Truncate`.
- LfsCreate.Create: not for fewer than one index block, where the source links a block of the data area, nor for a disk of exactly two sectors, where its loop bound wraps.
- Lfs.LocalFileSystem.Open: with the directory present; reading and checking it is in Lfs.Master.Open.
- Lfs.Mount: a disk that passes the check holds a file system as the code leaves it; the source trusts the words alone.
- LfsRuns.RunCommands: the files fit on the disk after every call of the run, because the source panics otherwise.
- LfsRuns.RunAndRestart: all files are closed at the end; of a file that is still open only what has been flushed is on the disk (`CleanPersists`).
- QuickSort.Qsort: the element size is positive, because the source divides by it, and the size of the array in bytes does not wrap.
- Heap.FreeList.FreeMem: addresses are multiples of 8 and the range ends below 2^32; the source does not check either.
* Heap: `meminit`; the first list is any canonical list.
* Kernel: `chprio`, which leaves the keys of the ready list behind; the parent message, device closes,
  stack release and `xdone` in `kill`; names, stacks and arguments in `create`; 32-bit overflow of
  semaphore counts and of the deferral count; the seconds counter of the clock handler.
- KernelRuns.StepKeeps: a process blocks, or ends itself, only while no deferral is outstanding, and the null process never blocks; the source relies on its callers for this.
* Ports: the function that disposes of messages in a cleared port, `ptcount`, overflow of sequence
  numbers. Each port's semaphores are its own; their behaviour is that of the kernel's (count and
  queue in order of arrival), and whether `semcreate` finds an entry for them is an argument of `PtCreate`.
- Ports.PortTable.Deposit: a free node exists, because the source panics otherwise; `NodeThere` says when one always does.
* IPv6: byte order and the byte layout of headers, which are records; Ethernet headers and neighbour
  lookup in `sendFragment` (a fragment that cannot be sent is a lost one); the pause between
  fragments; failures of `getmem`; what `processDatagram` does with a datagram.
- Fragments.FragmentDatagram: only for an MTU from 49 to 1500; at 48 the source loops for ever, below that the room for payload wraps, and above 1500 the packet buffer is too small.
- Reassembly.Reassembler.Reassemble: the length in the header is that of the payload and fragments end within 65535 bytes.
* Forwarding: `fwdIPDatagram`, the default route, and prefix lengths above 135, for which the
  comparison would leave the address. Prefix lengths of the empty table are zero because the table
  is static.
