# libsqfs: a verified model of building a SquashFS image

libsqfs builds SquashFS 4 images: an application creates directories, files and other inodes, threads compress
the file contents in the background, and finalizing the image writes inode table, directory table and the other
tables behind the data and the superblock last. This project models that from the work queues up to the finished
image, and proves that whatever the schedule of the threads was, a reader that has nothing but the bytes of the
image gets back exactly what was put in.

- **Bulk data.** Full blocks, fragment pieces and the closing piece go from reading over deduplication, assignment
  and compression to writing, on five intrusive queues, worked on by any number of threads that give up the lock
  while they read, compress or write. `Pipeline` is the transition system, one step for each critical section;
  `PipelineInvariant`, `PipelineControl`, `PipelineData` and `PipelineSteps` prove its invariant, and
  `PipelineTheorems` what follows for every run. `SequentialLayout` is the reference: one pass over the chunks in
  the order of submission. `WorkQueues` and `BulkDataStore` are the same thing as objects over shared link fields;
  each of their methods is proved to be a step of the transition system.
- **Metadata tables.** `MetaTables` cuts a stream into blocks of 8192 bytes and hands out positions before the
  blocks are compressed; `IndexedTables` finds entries through a block index, and `FragmentTables`,
  `ExportTables` and `XattrTables` are built on it.
- **Directories and inodes.** `DirectoryListings` (runs with back-patched counts), `DirectoryIndexes` (the thinned
  index), `InodeHeaders` (inodes as bytes), `Directories` (the class of inodes), `InodeGraphs` (recursive
  serialisation, each inode once).
- **Files and data sources.** `DataSources`, `FileLayouts`, `RegularFiles`.
- **The image.** `ImageLayouts`: allocation, the order of the tables, the superblock, and what is read back from a
  finished image.

Reading is modelled by functions that take bytes and positions only (`ReadAt`, `ReadDirInode`, `IndexedLookup`,
`ReadInfo`, `ReadFileInode`, `ReadFile`, `ReadSet`, and on top of them `OpenPath`, `StatPath`, `ReadPath` and `PathXattrs`,
which start at the superblock). Their offsets, sizes and limits are written out as numbers and not taken from the
definitions of the writers; the image format is that of the section "Squashfs Filesystem Design" of the Linux kernel's documentation of SquashFS. A
compressor is an abstract function that fails or returns between one byte and as many as it was given room for, and
that decompression inverts.

## What the callers have to see to

The code relies on its callers for these; each is a visible precondition where it is needed.

- Names are not empty, and not longer than the field for their length can say (src/directory.c:162). A listing reads
  back exactly if all its names are like that (`ListingRoundTrip`).
- Pieces of bulk data are between one byte and one block long (src/bulkdata.c:121), and nothing is submitted once the
  image is sealed: src/bulkdata.c:816-836 do not look at `may_add_chunks`.
- Directories form no cycle; src/directory.c:379-388 only see to it that a directory has one parent. The rank in
  `Tree` states this.
- Each table is smaller than 4 GiB (src/metatable.h:61), and the image smaller than 2^64 bytes.

## Where the code differs from its documentation

- include/libsqfs.h:751-752 say that data shared by several files are written only once. The deduplication stage is a
  placeholder (src/bulkdata.c:315) that passes every chunk on: each file is written. The model follows the code.
- A directory inode stores the number of index points in 16 bits and the size of the listing in 32
  (src/directory.c:276-288) without a check. `DirectoryReadsBack` gives the exact bound.
- A set of extended attributes stores its position with a 32-bit shift (src/xattrs.c:113): the descriptor is right
  exactly if the set starts in the first 64 KiB of its table (`DescriptorDecodes`), and `CrossingTheBound` is a table
  for which it is wrong.

## Model

| member | source | states |
|---|---|---|
| `PipelineTheorems.KeepsInv` | src/bulkdata.c:653-703 | Every critical section that can be entered in a state satisfying the invariant faults on nothing and keeps the invariant: queues, links of pieces, holders of chunks, wake-ups, placement, contents, image bytes. |
| `PipelineTheorems.NeverFaults` | src/bulkdata.c:115-187 | In every reachable state, whatever comes next, no state assertion fails and no null pointer is followed. |
| `PipelineTheorems.OneQueue` | src/bulkdata.c:38-77 | In every reachable state a queued chunk is in one queue only, once, and no thread holds it. |
| `PipelineTheorems.SingleWriter` | src/bulkdata.c:166-187 | In every reachable state the write queue holds at most the first unfinished chunk, and only that chunk may be being written, and never both. |
| `PipelineTheorems.WrittenOnce` | src/bulkdata.c:166-187 | Over every run from the empty image on, no chunk enters the write queue twice, and every finished chunk has entered it exactly once. |
| `PipelineTheorems.NotStuck` | src/bulkdata.c:166-187 | As long as a chunk is unfinished, some queue is not empty or some thread is busy. |
| `PipelineTheorems.SomeoneWorks` | src/bulkdata.c:678-703 | No wake-up is lost: while a chunk is unfinished and there are threads, one of them can take a step forward. |
| `PipelineTheorems.TakesFurthest` | src/bulkdata.c:653-676 | In every reachable state the chunk a round takes is as far along as any that is queued: writing goes before compressing, and so on back to reading. |
| `PipelineTheorems.EveryoneLeaves` | src/bulkdata.c:174-187 | When a sealed image is done, no thread sleeps: each has left the loop or can leave it. |
| `PipelineTheorems.RunsAreShort` | src/bulkdata.c:653-689 | However the threads are scheduled, the forward steps of a run of a sealed image are bounded by the measure of its chunks, which each of them lowers. |
| `PipelineTheorems.CanFinish` | src/bulkdata.c:678-689 | From every sealed state with a thread in the loop, some run finishes all chunks. |
| `PipelineTheorems.CompletedIsSequential` | src/bulkdata.c:240-263 | Every completed state is the sequential layout: file bytes, size, each byte of the data region written once, places of blocks and pieces, fragment blocks. |
| `PipelineTheorems.ScheduleIndependence` | src/bulkdata.h:32-43 | Two completed runs over the same submissions give the same image bytes, block offsets and sizes, and piece placements, whatever their interleavings. |
| `SequentialLayout.PackingBound` | src/bulkdata.c:330-373 | Fragment blocks hold exactly the bytes of the pieces, and k of them need k times the block size to be less than twice those bytes plus one block. |
| `SequentialLayout.NextDoesNotFit` | src/bulkdata.c:330-373 | A fragment block is closed only when a piece does not fit: the first piece of the next block would have made it longer than a block. |
| `SequentialLayout.FlushedStays` | src/bulkdata.c:375-397 | Once the packing has flushed a fragment block, later pieces leave it as it is. |
| `FileLayouts.DoneIsCompressed` | src/bulkdata.c:207-238 | In every completed state, the bytes at the place of a full block or of a fragment block are compressed if and only if that is asked for and the compressor can do it in no more room than the bytes themselves; then they are what the compressor makes of them, and else the bytes as they are. |
| `FileLayouts.FullIsKept` | src/bulkdata.c:537-564 | The same for a full block in any image that holds the bulk data. |
| `FileLayouts.FragmentIsKept` | src/bulkdata.c:375-414 | The same for a fragment block, whose contents are those of its pieces in order. |
| `WorkQueues.WorkQueue.PushBack` | src/bulkdata.c:38-46 | Over the shared link fields, the queue is well formed again and holds the same items with the new one last. |
| `WorkQueues.WorkQueue.PushFront` | src/bulkdata.c:48-56 | The same, with the new item first. |
| `WorkQueues.WorkQueue.Pop` | src/bulkdata.c:67-77 | The first item is taken and the rest stays a well-formed queue; nothing is taken from an empty one. |
| `BulkDataStore.BulkData.constructor` | src/bulkdata.c:608-633 | A new object is the initial state of the transition system. |
| `BulkDataStore.BulkData.Submit` | src/bulkdata.c:816-836 | Submitting keeps the invariant, appends the job, and returns the number of its chunk. |
| `BulkDataStore.BulkData.Seal` | src/bulkdata.c:733-751 | Sealing appends the closing piece the first time, nothing later, and keeps the invariant. |
| `BulkDataStore.BulkData.ProcessSingle` | src/bulkdata.c:655-676 | One round of the loop is the step of the transition system for the chunk it finds, and does nothing exactly if all queues are empty. |
| `BulkDataStore.BulkData.EndOperation` | src/bulkdata.c:375-428 | Taking the lock again after reading, compressing or writing is the ending step of the transition system. |
| `BulkDataStore.BulkData.ProcessAlone` | src/bulkdata.c:678-689 | One thread alone ends its loop with every chunk finished and the image as in the sequential layout. |
| `BulkDataStore.BulkData.Finish` | src/bulkdata.c:753-760 | Sealing and joining in the processing, with no other thread there, ends with all chunks finished and the image as in the sequential layout. |
| `Bytes.FieldsAreLittleEndian` | src/internal.h:163-172 | Readers take 16, 32 and 64-bit fields for numbers whose first byte counts least. |
| `MetaTables.AppendedReadsBack` | src/metatable.c:107-166 | After any appends and the final write, reading from the position issued with any of them gives the bytes appended there and after, over block boundaries, whatever the blocks compressed to and whatever follows the table. |
| `MetaTables.BlockIsKept` | src/metatable.c:56-86 | Block k of a table starts behind the blocks before it, with its stored length and, if it is not compressed, 0x8000; it is compressed exactly if the table is and that makes it smaller. |
| `MetaTables.MetaTable.Flush` | src/metatable.c:56-86 | The open block, if there is one, is closed; nothing else changes. |
| `MetaTables.MetaTable.Append` | src/metatable.c:107-134 | The position returned is that of the table before the call, and the table is then what the appends so far make of it. |
| `MetaTables.MetaTable.Write` | src/metatable.c:136-166 | The table lies at the old end of the image, which has grown by its size, and each of its bytes is written once. |
| `MetaTables.MetaTable.WriteWithIndex` | src/metatable.c:168-189 | Behind the table lies an index with the place of each block. |
| `IndexedTables.EntriesReadBack` | src/metatable.c:168-189 | Every entry of a table of fixed-size entries is found through its index, also if it crosses a block, and the index has as many slots as the bytes of the entries need blocks. |
| `IndexedTables.WrittenBlocks` | src/metatable.c:107-134 | The blocks of a table hold the chunks appended, in order, and each but the last has 8192 bytes. |
| `IndexedTables.WriteTable` | src/idtable.c:47-66 | A table of one chunk and its index lie at the old end of the image, nothing written before changes, and every byte is written once. |
| `FragmentTables.FragmentReadsBack` | src/bulkdata.c:779-814 | Looking up a fragment block gives its place, size and whether it is compressed. |
| `ExportTables.Register` | src/inodes.c:85-104 | A new inode gets the next number, and no type or place yet. |
| `ExportTables.ExportReadsBack` | src/export.c:29-51 | Looking up the number of an inode in the written table gives its position. |
| `XattrTables.XattrTable.AddSet` | src/xattrs.c:121-154 | A set goes behind the others with the next number; its descriptor says where it starts, how many attributes it has and how many bytes they take. |
| `XattrTables.XattrTable.WalkFits` | src/xattrs.c:229-259 | The index walk visits exactly the blocks of the descriptor table. |
| `XattrTables.XattrTable.Write` | src/xattrs.c:203-267 | Data, descriptors, header and index lie in the image; without sets nothing is written and the place is all ones. |
| `XattrTables.DescriptorDecodes` | src/xattrs.c:112-116 | A descriptor gives the position it was made for if and only if the block of the position is below 65536. |
| `XattrTables.AttrsRoundTrip` | src/xattrs.c:89-108 | From the bytes of a set a reader gets its attributes (type, name, value, in order) if and only if types and lengths of names fit 16 bits and lengths of values 32. |
| `XattrTables.XattrTable.SetReadsThroughDescriptor` | src/xattrs.c:80-119 | The descriptor in the image is right if and only if the block of the set is below 65536; then a reader that starts at the header gets exactly the attributes of the set if and only if each of them fits its fields. |
| `XattrTables.CrossingTheBound` | src/xattrs.c:113 | A table whose next set starts behind 64 KiB: the descriptor names another block. |
| `DirectoryListings.RunLimits` | src/directory.c:87-103 | Every run has 1 to 256 entries of one inode block with differences that fit 16 bits, and takes at most 8192 bytes unless it is a single entry whose name alone is too long for that. |
| `DirectoryListings.RunsEnd` | src/directory.c:87-103 | No run ends too early: the first entry of the next run lies in another inode block, or is more than 16 signed bits away in number, or would take the run past 8192 bytes, or the run has exactly 256 entries. |
| `DirectoryListings.ListingRoundTrip` | src/directory.c:105-199 | A reader that accepts at most 256 entries behind one header decodes a listing to its entries, names, numbers, places and types in order, if and only if every name is between 1 and 65536 bytes long. |
| `DirectoryIndexes.IndexApart` | src/directory.c:201-224 | Index points are entries that start a run, more than 128 entries apart, and not the first. |
| `DirectoryIndexes.IndexDense` | src/directory.c:201-224 | From no run is it more than 128 entries back to an index point or the start. |
| `DirectoryIndexes.SearchFrom` | src/directory.c:201-224 | In a sorted directory, a search from an entry whose name is not greater finds a name exactly if there is one; and it finds the same entry unless the name occurs before that entry too. |
| `DirectoryIndexes.IndexedLookupAgrees` | src/directory.c:105-224 | Looking up a name through the stored index, out of the finished directory table, agrees with a search of the whole listing. |
| `Bytes.LeIs` | src/directory.c:408-413 | The order of names: the first byte in which two names differ decides, and a name goes before those that continue it. |
| `Directories.Inode.AddEntry` | src/directory.c:376-427 | The entry goes before the first whose name is not smaller: names stay sorted, the new name leads to the new inode and every other where it led; links and parent are counted; a directory with a parent is refused and nothing changes. |
| `Directories.Inode.Lookup` | src/directory.c:429-438 | The first entry of that name. |
| `Directories.Inode.Encode` | src/directory.c:105-199 | With counts patched into the headers of the runs, what is appended to the directory table is the listing; entries know their numbers, offsets and places, and the entries that start a run are linked in order. |
| `Directories.Inode.PruneIndex` | src/directory.c:201-224 | Thinning out the linked list in place leaves the index of the specification. |
| `Directories.Inode.EncodeDirectory` | src/directory.c:240-313 | Header and index points of the chosen type are appended to the inode table, and the inode knows where. |
| `Directories.Inode.EncodeRegular` | src/regular.c:44-127 | The smaller type is chosen if it will do; header and list of block sizes are appended, and the inode knows where. |
| `InodeHeaders.DirInodeReadsBack` | src/directory.c:240-313 | At its position the inode of a directory reads back, listing place, size and index points, if and only if the fields of its type are wide enough. |
| `InodeHeaders.DirInfoReadsBack` | src/directory.c:240-313 | From the bytes at its position a reader gets mode, owner, group, time and number of a directory, its link count and parent, and its set of attributes, if and only if each fits its field. |
| `RegularFiles.FileInfoReadsBack` | src/regular.c:44-127 | The same for a regular file, with its link count, sparse size and set of attributes from the larger type, which is chosen whenever one of them is not what the smaller stands for. |
| `InodeGraphs.Tree.Serialize` | src/inodes.c:106-111 | Serialising terminates on every acyclic graph with hard links; each inode goes into the tables once, byte by byte where it says, behind everything it has entries for; inodes serialised before, other inodes, and all links are left alone. |
| `InodeGraphs.Tree.SerializeDirectory` | src/directory.c:315-353 | A directory whose entries are serialised is listed, its index thinned, its type chosen and its inode placed. |
| `InodeGraphs.Tree.NoPlaceholders` | src/inodes.c:98-101 | Every entry of a serialised directory leads to an inode with its final type and a place inside the table, never to what an inode starts with. |
| `InodeGraphs.Tree.ChildrenFirst` | src/directory.c:320-325 | Inodes are serialised before the directories that have entries for them. |
| `InodeGraphs.Tree.ReachableIsSerialised` | src/directory.c:315-353 | Whatever can be reached from a serialised inode has been serialised. |
| `InodeGraphs.Tree.OnlyReachable` | src/inodes.c:106-111 | Whatever is serialised along with an inode can be reached from it. |
| `InodeGraphs.Tree.DirectoryReadsBack` | src/directory.c:328-350 | From the finished inode table the inode of a serialised directory reads back exactly if its listing is shorter than 4 GiB less 3 bytes and it has fewer than 65536 index points. |
| `InodeGraphs.Tree.InfoReadsBack` | src/directory.c:226-313 | From the finished inode table, what a serialised directory or regular file says of itself is read as it is in memory, if and only if its attributes fit their fields. |
| `InodeGraphs.Tree.LookupReadsBack` | src/directory.c:105-353 | A reader that knows the position of a directory's inode, and the two finished tables, finds a name exactly if there is an entry of that name, and then number and place of its inode and its basic type, 1 for a directory and 2 for a regular file. |
| `InodeGraphs.Tree.PathReadsBack` | src/directory.c:315-353 | From the position of any serialised inode, a path leads a reader of the two tables to the inode it leads to in memory, and nowhere exactly if it leads nowhere. |
| `DataSources.MemoryPread` | src/datasource.c:174-182 | What is read from a buffer is the part of it inside the range, clipped at its end. |
| `DataSources.CompoundPread` | src/datasource.c:252-286 | For compounds nested at will, also with pieces that are short, what is read is the range of the concatenation up to the first missing byte. |
| `DataSources.CreateCompound` | src/datasource.c:310-336 | The size of a new compound is the sum of those of its pieces. |
| `DataSources.ReadIsSlice` | src/datasource.c:252-286 | If no piece is short, what is read is exactly the slice of all bytes, clipped at the end. |
| `DataSources.CompoundBytes` | src/datasource.c:310-336 | The bytes of a compound whose pieces are in range are those of its pieces, each at the place where the pieces before it end. |
| `FileLayouts.SplitIsPartition` | src/regular.c:140-161 | Under each policy, the pieces a file is submitted as are not empty, at most one block long, and make up the file in order. |
| `FileLayouts.SplitFollows` | src/regular.c:140-161 | What each policy promises: without fragments there are full blocks only; for small files, one that is shorter than a block but not empty is one fragment piece and any other is blocks; always, every block is full and there is a fragment piece exactly if the size is no multiple of the block size. |
| `FileLayouts.ReaderCountsBlocks` | src/regular.c:113-126 | The number of blocks a reader derives from the size, rounding down with a fragment and up without, is the number of block sizes stored. |
| `FileLayouts.FileReadsBack` | src/bulkdata.c:375-428 | From start block, list of block sizes, place in a fragment and fragment table, out of finished bulk data, a reader gets the contents of a file. |
| `RegularFiles.SubmitFile` | src/regular.c:181-209 | The jobs submitted make up the source's contents, cut as the policy given promises, and the file knows its chunks. |
| `RegularFiles.FileInodeReadsBack` | src/regular.c:44-127 | At its position the inode of a regular file reads back, whichever type was chosen. |
| `RegularFiles.CreatedFileReadsBack` | src/regular.c:134-212 | From the position of its inode, a reader gets back the contents of the source that a file was created from. |
| `ImageLayouts.CreateImage` | src/image.c:147-214 | Superblock and compressor options have their room, and nothing is written. |
| `ImageLayouts.CreateRegular` | src/regular.c:134-212 | Creating a file submits its source, cut as the policy given promises, and makes an inode with the next number and the attributes given that carries these contents. |
| `ImageLayouts.CarriesOn` | src/bulkdata.c:816-836 | Whatever is submitted later, a file that has been created keeps its contents. |
| `ImageLayouts.WriteOptions` | src/image.c:267-282 | The compressor options lie where room was reserved, size and data; nothing behind changes, and each of their bytes is written once. |
| `ImageLayouts.OptionsRead` | src/image.c:267-282 | A reader takes the compressor options for a metadata block that is stored as it is, with exactly these data, if and only if they are shorter than 32 KiB. |
| `ImageLayouts.Settle` | src/image.c:297-300 | What finalizing does first: bulk data finished as in the sequential layout, then the inodes below the root serialised; this is what completing the image starts from. |
| `ImageLayouts.BulkIsCovered` | src/bulkdata.c:240-263 | Finished bulk data, whatever the schedule, are written once each behind what was reserved before. |
| `ImageLayouts.WriteTables` | src/image.c:301-308 | All tables lie in the image at the places recorded, behind the data, which stay as they were; every byte is written once. |
| `ImageLayouts.SuperReads` | src/superblock.c:34-73 | The superblock is understood as it was meant: version 4.0, all general fields, the size used, root and the places of all tables, each cut down to the width of its field. |
| `ImageLayouts.FlagsRead` | src/superblock.c:22-48 | Each option sets or clears the bit a reader looks for it at, and no other bit is set. |
| `ImageLayouts.GeneralTells` | src/superblock.c:51-60 | The general fields tell how many inodes, fragment blocks and ids there are, the settings, and through the flags each option. |
| `ImageLayouts.PathInImage` | src/image.c:284-326 | From nothing but the finished image, a path leads a reader exactly where it leads in the tree. |
| `ImageLayouts.FileInImage` | src/image.c:284-326 | From nothing but the finished image, a reader of the file at the end of a path gets the contents of the source it was created from, whatever the schedule was. |
| `ImageLayouts.InfoInImage` | src/image.c:284-326 | From nothing but the finished image, a reader learns of the inode at the end of a path its mode, owner, group, time, number, links, parent and set of attributes as they are in the tree, if these fit their fields. |
| `ImageLayouts.XattrsInImage` | src/image.c:284-326 | From nothing but the finished image, a reader gets exactly the extended attributes of the inode at the end of a path, if their set starts below the bound and its attributes fit their fields. |
| `ImageLayouts.Finalize` | src/image.c:284-326 | Completing an image: every byte up to its size is written exactly once, superblock and compressor options are in place, the superblock counts inodes, fragment blocks and ids and tells the options set, all tables lie where it says, and paths, files and what inodes say of themselves read from the image as they are in the tree. |

## Left out

- Compressor back ends (src/compressor.c and the files beside it): foreign libraries; the abstract compressor stands for them.
- src/destination.c, sources backed by files, src/threadpool.c, the example program: system calls and plumbing; the output is a sequence of bytes, threads are numbers.
- Allocation failures, failures of reading and writing, and abort: all results are for runs without faults. `libsqfs_bulkdata_finish` always succeeds (src/bulkdata.c:759), so a fatal error does not keep an image from being marked finalized.
- Comparing the contents of chunks: the deduplication stage of the code is a placeholder and is modelled as such.
- `libsqfs_chunk_workq_remove` (src/bulkdata.c:59-65): nothing calls it.
- Symbolic links, devices and named pipes (src/special.c): they are inodes ready to be stored, of a type of their own; their fields are not modelled.
- Time, number of the compressor, logarithm of the block size and the fragment policy the superblock tells are parameters of `Finalize` (src/superblock.c:51-60), and so are the bytes of the id table: src/idtable.c:31-45 is a plain search.
- The link the root gets for being the root (src/image.c:335-341): the link count is what it is when the inodes are serialised.
- Padding behind the image (src/image.c:312-317) and marking the image finalized: what is written is complete before that.
- The positions in the export table of inodes that are not reachable from the root: they keep what they were initialised with (src/inodes.c:98-99).
- A set without attributes leaves its stored position unset (src/xattrs.c:80-119): the model takes any position for it.
- Finalize: takes bulk data that are finished and inodes that are serialised; `Settle` is the first half of src/image.c:284-326 that sees to both.
- Finish: the thread that finalizes is the only one in the loop; that other threads may be there too is the subject of `SomeoneWorks`, `RunsAreShort` and `ScheduleIndependence`.
- Serialize: linked lists of entries and of index points are sequences here, updated in place; the sharing of list nodes is not modelled.
- CompoundPread: sizes and offsets are unbounded; the widths of `size_t` and `off_t` are not modelled.
