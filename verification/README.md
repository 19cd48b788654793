# AltFS in Dafny

A model of AltFS, a small Unix-style file system over an array of fixed-size blocks, with proofs that
its layers fit together: the free-list block allocator, the inodes with their direct and indirect
blocks, the bytes of files, the records of directories, and path names.

The disk is one object, `Disk.Disk`, with the blocks in an array and the superblock fields
`s_freelist_head` and `s_first_ino` beside it; the inode table is a sequence of records. The code that
changes it is written as methods with the branches and loops of the program, on blocks that are read
either as 512 words or as 4096 bytes (`Blocks`).

A ghost `World` beside the disk (`Ownership`) lists the chain of free-list blocks, the index trees of
every inode level by level, and for each data-region block the one place that holds it: a link of the
free chain, a slot of a free-list block, "allocated but not attached", or one position in the tree of
one inode. `WorldOk` ties that bookkeeping to the contents of the blocks in both directions, and every
method keeps it (`AllocatorRuns.ExactlyOneOwner`). `Places` says the same without the bookkeeping:
following the links of the free list, the list of blocks that the client holds and the pointers from
the inode table leads to each data block at exactly one place. That is so wherever a run stops, also
when it stops at an append that runs out of blocks (`Runs.Run`).

What the layers are shown to do, from the bottom up:

- **Allocator.** Allocating takes exactly one free block, zeroed; freeing gives exactly that block
  back. The list stays well formed exactly when a block is not freed into an empty list
  (`FreeKeepsListIff`). Formatting succeeds exactly when the number of data blocks is not a multiple
  of 512, and then every data block can be allocated once before the first failure.
- **Block map.** Appending refines appending to a list across all three indirection levels, takes
  exactly the new index blocks from the free list, and fails exactly when there are too few. Lookups
  return the same block with and without the hint of the previous lookup. Cutting a file leaves the
  prefix and frees exactly the blocks that the shorter map does not need.
- **A cut inside the double indirect region** does not always do so: the data blocks are freed as they
  should be and the prefix is still found, but the index tree is well formed afterwards exactly when
  the cut and the end of the file share a leaf that the cut does not empty (`RemovalExactIff`).
- **Files.** Writing overlays the data on the content, with zeros in a gap; reading returns the slice;
  truncating cuts or pads with zeros; and no byte of another file changes. A write gets through exactly
  when the blocks it needs are there (`Fits`); one that does not leaves what a write of the bytes it
  reports would leave, as far as the file has blocks.
- **Directories.** The packed records refine a list of records; adding and removing an entry changes
  what is found for that name and nothing else.
- **Paths.** Resolving a path parent first equals the walk over its components from the root. Creating
  a file makes exactly the paths that denote it resolve to it; unlinking it makes exactly the paths
  through it fail; and doing both gives every path back what it resolved to.
- **Runs.** From a formatted device, any sequence of taking, giving back, attaching, cutting, creating
  and deleting keeps every block at one place, and each step does exactly what it should to the blocks
  held, the block lists of the inodes, the inodes in use, the free count and the data
  (`Snapshots.Follows`); and making, filling and deleting a file restores the free set, the trees, the
  inode table and the next inode number.
- **Sessions.** One invariant (`Changes.StateOk`) holds over every sequence of making files and
  directories, writing, truncating and unlinking by path: the blocks and directories are in order, the
  directories form a tree, and every file has one name and its content. Each call changes what is at
  its own path as it should (`Models.Effect`), and nothing at any other path, so after any sequence
  what is at every path is what the calls make of an empty root. `Models` is the file system in
  memory, with its free blocks counted: the program performs exactly the calls that succeed there, and
  leaves what they leave there (`Sessions.RunCalls`). A call that runs out of room leaves every other
  path, directory and file as it was.

Preconditions that the code needs appear in the contracts: a non-empty free list whenever a block is
freed, an inode table whose free records are zero, and a file with only one name when it is unlinked,
which in a session is part of the invariant.

Conventions: `d` is the contents of the blocks, `lo` the first data block, `head` the head of the free
list, `w` the world, `rec` an inode record, `ino` its number; a prime marks the state after. Bodies
start with `hide` for the definitions that the proof step does not need.

## Model

| member | source | states |
|---|---|---|
| Blocks.BytesRoundTrip | src/data_block_ops.c:59-83 | bytes written to a block read back the same |
| Blocks.WordsRoundTrip | src/data_block_ops.c:20 | block numbers stored through the byte buffer read back the same |
| Blocks.ByteLayout | src/data_block_ops.c:20 | word `i` of a block is its bytes from `8 * i` on, the least significant first |
| Blocks.ZeroBlockBytes | src/data_block_ops.c:54-55 | a zeroed block is zero as words and as bytes |
| FreeList.TakeSlot | src/data_block_ops.c:25-35 | handing out a listed block keeps the list well formed without it |
| FreeList.TakeHead | src/data_block_ops.c:38-47 | handing out a list block whose slots are empty makes the next one the head |
| FreeList.PutSlot | src/data_block_ops.c:118-126 | listing a freed block in a zero slot of the head keeps the list well formed |
| FreeList.PutHead | src/data_block_ops.c:129-145 | a freed block that becomes the new head links to the old one |
| FreeList.AllocateOk | src/data_block_ops.c:5-57 | on a non-empty list an allocation returns a free block, zeroed, changes no block in use, and keeps every other block where it was |
| FreeList.FreeOk | src/data_block_ops.c:85-154 | on a non-empty list freeing a held block puts exactly that block into the list and changes no block in use |
| FreeList.EmptyIff | src/data_block_ops.c:7-11 | the head is 0 exactly when no block is free |
| Disk.Disk.ReadBlock | src/disk_layer.c:104-131 | reads a block exactly when its number is on the device |
| Disk.Disk.WriteBlock | src/disk_layer.c:133-162 | writes a block exactly when its number is on the device |
| Disk.Disk.AllocateDataBlock | src/data_block_ops.c:5-57 | the loop over the slots implements the allocation, fails exactly on an empty list, and keeps the whole bookkeeping |
| Disk.Disk.ReadDataBlock | src/data_block_ops.c:59-73 | reads exactly the data region, although the guard admits one number too many |
| Disk.Disk.WriteDataBlock | src/data_block_ops.c:75-83 | writes exactly the data region |
| Disk.Disk.FreeDataBlock | src/data_block_ops.c:85-154 | the loop over the slots implements the release, for every number and also on an empty list |
| Disk.Disk.FreeHeld | src/data_block_ops.c:85-154 | freeing a held block into a non-empty list keeps the whole bookkeeping |
| AllocatorRuns.ExactlyOneOwner | src/data_block_ops.c:20-152 | every data block is a list block, or in one slot, or held, or at one position of one inode, and in no second place |
| AllocatorRuns.FreeOnEmptyBreaks | src/data_block_ops.c:98-126 | freeing into an empty list makes the freed block list or follow itself, whatever it held |
| AllocatorRuns.FreeKeepsListIff | src/data_block_ops.c:98-152 | freeing leaves a well-formed list if and only if the list was not empty |
| AllocatorRuns.DrainAll | src/data_block_ops.c:5-57 | as many allocations as there are free blocks return different free blocks |
| AllocatorRuns.DrainFails | src/data_block_ops.c:7-11 | the allocation after that is the first to return -1 |
| AllocatorRuns.CallOk | src/data_block_ops.c:5-154 | a call hands out a zeroed block that is not held or takes one back; free and held blocks together stay the same set |
| AllocatorRuns.CallsOk | src/data_block_ops.c:5-154 | over every sequence of calls each is served in turn: a take adds one new zeroed block if there is any, a block that is held is given back, and what is held is not touched; so the held blocks number the takes served less the gives accepted, and free and held blocks together stay the same set |
| AllocatorRuns.TakesOk | src/data_block_ops.c:5-57 | a run of takes leaves the client with what it held and the different blocks that the allocations return |
| Superblock.CreateSuperblock | src/superblock_layer.c:76-89 | the fields of an empty file system |
| Superblock.CreateIlist | src/superblock_layer.c:93-109 | all inodes are zero and the data region is untouched |
| Superblock.CreateFreelist | src/superblock_layer.c:112-157 | the chain covers the data region; it succeeds if and only if the number of data blocks is not a multiple of 512 |
| Superblock.FormattedOk | src/superblock_layer.c:112-157 | the chain and slots that are written hold each data block exactly once |
| Superblock.MakeFs | src/superblock_layer.c:164-205 | after formatting every data block is free and no inode has blocks |
| BlockMap.NeedStep | src/inode_data_block_ops.c:23-176 | which levels get a new index block when block `n` is appended |
| BlockMap.IndexBlocksClosed | src/inode_data_block_ops.c:23-176 | the closed form of the number of index blocks of a map of `n` blocks |
| Attaching.AttachOk | src/inode_data_block_ops.c:37-44 | linking a held block into the tree of an inode keeps the bookkeeping and the tree |
| Attaching.OthersFrame | src/inode_data_block_ops.c:7-203 | an append leaves the block map of every other inode alone |
| Append.TakeRoot | src/inode_data_block_ops.c:58-68 | a new root is taken and recorded, or the disk is full |
| Append.GrowIndex | src/inode_data_block_ops.c:76-93 | a new index block is taken and linked, or the disk is full |
| Append.AddDirect | src/inode_data_block_ops.c:13-18 | appending in the direct blocks |
| Append.AddSingle | src/inode_data_block_ops.c:23-50 | appending in the single indirect block, growing it at block 12 |
| Append.AddUnder | src/inode_data_block_ops.c:95-116 | appending below an index block of level 2 |
| Append.AddDouble | src/inode_data_block_ops.c:55-117 | appending in the double indirect tree |
| Append.AddUnderRoot | src/inode_data_block_ops.c:135-199 | appending below the root of the triple indirect tree |
| Append.AddTriple | src/inode_data_block_ops.c:122-200 | appending in the triple indirect tree |
| Append.AddDatablockToInode | src/inode_data_block_ops.c:7-203 | succeeds if and only if the map is not full and the index blocks it grows by are free; the map gets the block at its end and keeps the rest. Failing on a map that is not full leaves the data blocks mapped as before and no block free, and the record's pointers lead to every index block taken |
| Append.GrowthValue | src/inode_data_block_ops.c:23-176 | the closed form grows by one for each level that the append starts |
| Append.AppendRefines | src/inode_data_block_ops.c:7-203 | the map as a list is the old list with the block at its end |
| Lookup.GetDiskBlock | src/inode_ops.c:343-476 | returns the mapped block with any hint that an earlier lookup of the block before may have left, and leaves such a hint; at the end of the map an empty slot or, without an index block, -1; beyond it -1 |
| Lookup.FindDouble | src/inode_ops.c:387-423 | the same in the double indirect tree |
| Lookup.FindTriple | src/inode_ops.c:429-475 | the same in the triple indirect tree |
| Lookup.DataOwner | src/inode_ops.c:343-476 | a mapped block belongs to this inode at this place and nowhere else |
| Walks.WalkOwned | src/inode_data_block_ops.c:363-390 | the zero-terminated walk frees exactly the blocks at or under its start, each once |
| Walks.WalkFrame | src/inode_ops.c:179-228 | the walk depends on no other block |
| Cutting.RegionWalkOwned | src/inode_ops.c:179-228 | the walk from a root frees the whole region, and as many blocks as its levels have |
| Releasing.RemoveDatablocksUtility | src/inode_data_block_ops.c:363-390 | frees the whole walk, each block once, and nothing else, although the blocks are rewritten while it reads them |
| Releasing.FreeIndirectBlocks | src/inode_ops.c:179-228 | the same for the walk of a deleted inode |
| Truncation.DoomedOwned | src/inode_data_block_ops.c:409-536 | the blocks freed by a cut at `n` up to 524 are exactly those that a map of `n` blocks does not have, each once |
| Truncation.DoomedLength | src/inode_data_block_ops.c:409-536 | their number is the dropped blocks plus the difference of the closed form |
| Truncation.TruncateDone | src/inode_data_block_ops.c:409-536 | after the cut the map is the prefix, zero-terminated again |
| Removal.ClearDirect | src/inode_data_block_ops.c:411-419 | frees and clears the direct blocks from the cut on |
| Removal.ClearSlots | src/inode_data_block_ops.c:488-496 | frees the blocks listed from a slot on and clears the slots |
| Removal.RemoveLater | src/inode_data_block_ops.c:504-535 | frees the trees of the later regions that the file has |
| Removal.RemoveFromDirect | src/inode_data_block_ops.c:409-470 | an exact cut at `n` up to 12 |
| Removal.RemoveFromSingle | src/inode_data_block_ops.c:475-536 | an exact cut at `n` up to 524 |
| DoubleRemoval.SlidingOwned | src/inode_data_block_ops.c:564-614 | the loop frees exactly the data blocks behind the cut and the leaves strictly between the first and the last, each once |
| DoubleRemoval.SlidingLength | src/inode_data_block_ops.c:564-614 | how many that are |
| DoubleRemoval.ClearLeaf | src/inode_data_block_ops.c:575-591 | frees the data blocks behind the cut that one leaf lists and clears their slots |
| DoubleRemoval.FreeLeaves | src/inode_data_block_ops.c:555-614 | the sliding end count stops the loop in exactly the last leaf |
| DoubleRemoval.RemoveFromDouble | src/inode_data_block_ops.c:541-622 | what a cut inside the double region of a file that ends there frees, keeps and leaves behind |
| DoubleRemoval.ResolveOk | src/inode_ops.c:354-422 | in a well-formed file the walk over the disk finds the block map |
| DoubleRemoval.PrefixKept | src/inode_data_block_ops.c:541-622 | the blocks before the cut are still found where they were |
| DoubleRemoval.RemovalFails | src/inode_data_block_ops.c:595-613 | a file of 1040 blocks cut at block 525: no tree represents what is left, and the root still points to the emptied leaf |
| DoubleRemoval.RemovalExactIff | src/inode_data_block_ops.c:595-613 | some tree represents the shorter file if and only if the cut and the end share a leaf that the cut does not empty; then the cut is exact |
| Truncates.TruncateRefines | src/inode_data_block_ops.c:409-536 | the map as a list becomes its first `n` blocks, for every exact cut |
| Truncates.RemoveDatablocksFromInode | src/inode_data_block_ops.c:392-622 | fails exactly at or behind the end, and otherwise cuts in the region of `n` |
| Inodes.FreeDirect | src/inode_ops.c:236-250 | frees the direct blocks up to the first zero, which are all of them |
| Inodes.FreeRoot | src/inode_ops.c:253-260 | frees the tree of a region if it has one |
| Inodes.FreeDataBlocksInInode | src/inode_ops.c:233-284 | frees exactly the data and index blocks of the inode, each once |
| Inodes.InumToBlockPos | src/inode_ops.c:17-22 | the block and offset are in the table and give the number back |
| Inodes.GetInode | src/inode_ops.c:116-142 | a copy of the record, or null exactly for an invalid number |
| Inodes.WriteInode | src/inode_ops.c:144-174 | changes exactly that record |
| Inodes.SearchFree | src/inode_ops.c:75-111 | the block-by-block search ends at the smallest later free inode, or the inode count |
| Inodes.AllocateInode | src/inode_ops.c:24-114 | returns the smallest free inode from 3 on and keeps `s_first_ino` the smallest free one; fails exactly when all are in use |
| Inodes.FreeInodeOk | src/inode_ops.c:286-341 | freeing one inode keeps the block map of every other |
| Inodes.FreeInode | src/inode_ops.c:286-341 | frees all its blocks, zeroes its record and keeps `s_first_ino` the smallest free one |
| Content.OverlayBytes | src/interface_layer.c:630-746 | a write changes exactly the bytes in its range and the length; a gap reads as zeros |
| Content.WrittenBlock | src/interface_layer.c:654-688 | copying a block's part of the write over it gives that block of the new content |
| Content.UnwrittenBlock | src/interface_layer.c:643 | a block outside the range of the write needs no change |
| Files.OtherFileKept | src/interface_layer.c:643-742 | an operation on one inode keeps the map and the bytes of every other |
| Files.Read | src/interface_layer.c:471-600 | returns min(n, size - off) bytes, the slice of the content at the offset, or the error |
| Files.ReadBlocks | src/interface_layer.c:514-589 | the slice, for any span of blocks |
| Files.OverwriteBlock | src/interface_layer.c:654-699 | first, middle or last block of the part of the write that the file already has |
| Files.WriteExisting | src/interface_layer.c:640-699 | after the first loop the existing blocks hold the new content |
| Files.AppendBlock | src/interface_layer.c:704-714 | a zeroed block is appended if and only if there is room for it and its index blocks |
| Writes.FillNewBlock | src/interface_layer.c:716-741 | gap, first, middle or last block of the part behind the old end |
| Writes.WriteNew | src/interface_layer.c:701-742 | the second loop completes if and only if the blocks it needs are free; then all blocks hold the new content |
| Writes.DoesNotFit | src/interface_layer.c:704-714 | a block that does not fit means that the write does not |
| Writes.UpdateOk | src/interface_layer.c:753 | the changed record and the untouched other inodes make a consistent file system |
| Writes.ShortBlocks | src/interface_layer.c:704-714 | the blocks of a file after a write that ran out of blocks hold what a write of the bytes it counted makes of the content |
| Writes.ShortShape | src/interface_layer.c:745-748 | such a file has the blocks for its size if and only if a byte was written or the write was to start within the blocks it has |
| Writes.Write | src/interface_layer.c:602-761 | all bytes are written if and only if they fit; then the content is the old one padded to the offset and overlaid with the data; otherwise the blocks hold this for the bytes that were written, and the result counts them |
| Truncates.ShrinkStart | src/interface_layer.c:809-814 | after the removal only the last block holds more than the prefix |
| Truncates.ZeroTail | src/interface_layer.c:825-841 | the last block is zeroed behind the new end |
| Truncates.Shrink | src/interface_layer.c:809-847 | the content becomes its prefix |
| Truncates.ExtendDone | src/interface_layer.c:792-807 | writing zeros at the end pads the content |
| Truncates.Truncate | src/interface_layer.c:763-848 | cuts or pads the content, or reports the error; if there is no room to pad, the file is what a short write of zeros leaves and every other record and file is as before |
| Records.DecodeEncode | src/directory_ops.c:127-134 | the fields of a record read back as they were written |
| Records.RecordLayout | src/directory_ops.c:127-134 | a record is two bytes of length, eight of inode number, the name and a zero |
| Records.ReadRecord | src/directory_ops.c:260-280 | each record is read at its position, and the step leads to the next |
| Records.ReadEnd | src/directory_ops.c:267-269 | behind the last record the length reads as 0 |
| Records.ScanForName | src/directory_ops.c:259-281 | the offset of the first record with the name, or none |
| Records.ScanForRoom | src/directory_ops.c:113-152 | the end of the records if the new one fits behind them |
| Records.PutRecordOk | src/directory_ops.c:127-134 | a record written there is the new last record |
| Records.CompactOk | src/directory_ops.c:204-213 | taking a record out leaves the others in order and a zero tail |
| Listings.SearchRefines | src/directory_ops.c:245-284 | the search block by block finds the first record of the whole directory |
| Listings.AddFinds | src/directory_ops.c:79-193 | after adding an absent name it is found and every other search is unchanged; one record more |
| Listings.RemoveFinds | src/directory_ops.c:195-222 | after removing a unique name it is not found and every other search is unchanged; one record less |
| Listings.AddRemove | src/directory_ops.c:79-222 | removing what was just added gives the old list back |
| Directory.GetFilePositionInDir | src/directory_ops.c:224-284 | the position of the first record with the name, or none |
| Directory.RemoveDirectoryEntry | src/directory_ops.c:195-222 | succeeds if and only if the name is there; takes its first record out and counts it |
| Directory.DirFailed | src/directory_ops.c:183-188 | a block that cannot be attached leaves the records of the directory as they were |
| Directory.AddInNewBlock | src/directory_ops.c:159-192 | a new block with the record is appended if and only if there is room on the disk, and takes exactly it and its index blocks |
| Directory.NameLimit | src/directory_ops.c:90-95 | a name of up to 255 bytes has room once blocks are free, a longer one never |
| Directory.AddDirectoryEntry | src/directory_ops.c:79-193 | succeeds if and only if it is a directory, the name is short enough and there is room; the record goes into the first block that has room; otherwise the records are as before |
| Directory.IsEmptyDir | src/interface_layer.c:183-190 | true exactly when there are at most two records |
| Paths.GetLastIndexOfParentPath | src/directory_ops.c:12-20 | the last slash that is not the last character |
| Paths.CopyParentPath | src/directory_ops.c:22-42 | the path up to that slash, or "/" |
| Paths.CopyFileName | src/directory_ops.c:44-62 | the path behind that slash, without a trailing slash |
| Paths.SplitRebuilds | src/directory_ops.c:12-62 | parent and file name joined by a slash give the path back; the parent is strictly shorter |
| Paths.SplitCanonical | src/directory_ops.c:12-62 | splitting a canonical path takes off its last component |
| Paths.NameI | src/directory_ops.c:286-338 | the method finds what the recursive specification says, and stops |
| Paths.RelativePath | src/directory_ops.c:288-308 | a path that does not begin with a slash does not resolve; "/" is inode 2 |
| Paths.ResolvesByWalking | src/directory_ops.c:286-338 | for canonical paths that is the walk from inode 2 over the components, first to last |
| Namespace.CreateNewFile | src/interface_layer.c:92-181 | succeeds if and only if the parent is a directory, an inode is free and the entry has room; the new inode is the smallest free one; a failure leaves the inodes and all directory records as before, and nothing changed at all without a parent directory; other files keep every block |
| Namespace.EnterFile | src/interface_layer.c:141-175 | the entry is made if and only if there is room; otherwise the inode is free again and the parent has the records that it had; other files keep every block |
| Namespace.FailedNamespace | src/interface_layer.c:141-147 | after a failed entry every directory has the records that it had |
| Namespace.CreateResolves | src/interface_layer.c:92-181 | exactly the paths that denote the new file resolve to it, all others as before |
| Namespace.Unlink | src/interface_layer.c:323-396 | which error for what, also for a directory that is not empty; the entry is removed, and with the last link the inode is freed and all its data and index blocks are given back, otherwise its link count drops; files other than it and its directory keep every block |
| Namespace.RemoveFile | src/interface_layer.c:369-387 | the directories stay in order without the file, and files other than it and its directory keep every block |
| Namespace.EntryRemoved | src/interface_layer.c:369-387 | taking out one of several names takes its record out of the directory and changes no other |
| Namespace.KeptFile | src/interface_layer.c:369-387 | so every other file has the map and the bytes that it had |
| Namespace.DropLink | src/interface_layer.c:377-386 | the last link frees the inode |
| Namespace.DeleteResolves | src/interface_layer.c:323-396 | exactly the paths through the file fail, all others resolve as before |
| Namespace.NewSoleName | src/interface_layer.c:133-147 | a new file has one name |
| Namespace.CreateUndone | src/interface_layer.c:92-396 | unlinking a file just created gives every path back what it resolved to |
| Namespace.FillDir | src/interface_layer.c:212-228 | an empty directory gets "." for itself and ".." for its parent if and only if a block is free |
| Namespace.SetupFilesystem | src/directory_ops.c:341-421 | a formatted device gets a root directory with its two entries |
| Namespace.RootNamespace | src/directory_ops.c:377-420 | then the namespace is in order with nothing but the root |
| Runs.AppendTakes | src/inode_data_block_ops.c:27-176 | every block that an append takes from the free list is one of its new index blocks |
| Runs.FailedTakes | src/inode_data_block_ops.c:58-93 | so is every block that an append takes before it runs out of blocks |
| Snapshots.TakeFollows | src/data_block_ops.c:20-56 | taking a block gives the client one zeroed block that nobody had, and changes no list and no data |
| Snapshots.AttachFollows | src/inode_data_block_ops.c:7-203 | attaching moves the client's first block to the end of one inode's list, takes exactly the index blocks, and changes no data |
| Snapshots.CutFollows | src/inode_data_block_ops.c:392-536 | cutting leaves the first blocks of one inode's list, frees exactly the others and the index blocks over them, and changes no data that is left |
| Snapshots.DeleteFollows | src/inode_ops.c:286-341 | deleting empties one inode's list and frees exactly its blocks |
| Snapshots.DataOwned | src/inode_ops.c:343-476 | what the client holds and what the lists show is data in the bookkeeping |
| Runs.AttachFirst | src/interface_layer.c:704-753 | the client's block moves to the end of the inode's list, if and only if the index blocks it needs are free; otherwise nothing is seen but fewer free blocks, and the record written back leads to the index blocks taken |
| Runs.CutTo | src/inode_data_block_ops.c:392-622 | an exact cut leaves the first blocks of the inode's list, frees exactly the others, and changes nothing else |
| Runs.DoStep | src/inode_ops.c:24-341 | each step succeeds if and only if what it needs is there, and then does to the held blocks, the lists, the inodes in use, the number of free blocks and the data what it should; otherwise nothing of that changes |
| Places.FollowChain | src/data_block_ops.c:38-47 | following the links from the head finds the list blocks in order, and then 0 |
| Places.ReachTree | src/inode_ops.c:343-476 | following the pointers of a record finds every block of its trees, and nothing where they have no block |
| Places.OnePlaceEach | src/data_block_ops.c:5-154 | found by following links, slots and pointers on the disk alone, every data block is at exactly one place |
| Runs.Run | src/data_block_ops.c:5-154 | over every run each step done does what it should from the state that the step before left, and the run stops exactly before the first step that is not allowed or not possible; wherever it stops, every data block is found at exactly one place on the disk or held by the client; unless an append has failed the file system is in order |
| Runs.HeldCount | src/data_block_ops.c:5-154 | the client holds as many blocks more as it has taken, less those given back and attached |
| Runs.FormatAndRun | src/superblock_layer.c:164-205 | the same from a device that has just been formatted, on which all data blocks are free and no inode is used |
| Runs.FormattedDrains | src/superblock_layer.c:112-157 | on a formatted device as many allocations as there are data blocks return different data blocks before the first -1 |
| Runs.CycleDone | src/inode_ops.c:233-341 | deleting a filled inode gives back exactly the blocks that filling it took |
| Runs.LifeCycle | src/inode_ops.c:24-341 | creating, filling with `n` blocks and deleting succeeds if and only if there is room, and restores everything |
| Trees.SamePath | src/directory_ops.c:286-338 | in a tree of directories two paths that resolve to the same inode are the same path |
| Trees.SproutsTree | src/interface_layer.c:141-175 | a new entry for a new inode keeps the directories a tree |
| Trees.SproutsAt | src/interface_layer.c:141-175 | it makes its path resolve, and no other path resolves differently |
| Trees.ShrinksTree | src/interface_layer.c:369-387 | taking out an entry that leads no further keeps the directories a tree |
| Trees.ShrinksAt | src/interface_layer.c:369-387 | it makes its path fail, and no other path |
| Trees.CountsChildren | src/interface_layer.c:183-190 | a directory has more than two records if and only if it has an entry but "." and ".." |
| Trees.SoleEntry | src/interface_layer.c:323-396 | an inode without entries of its own has only the name that it is entered under |
| Changes.FileChanged | src/interface_layer.c:602-848 | new content of one file keeps the whole state in order and is seen at its path only |
| Changes.FileMade | src/interface_layer.c:92-181 | so does a new file |
| Changes.DirMade | src/interface_layer.c:192-237 | so does a new directory with its two entries |
| Changes.FileGone | src/interface_layer.c:323-396 | so does a file or empty directory that is unlinked |
| Changes.WriteStopped | src/interface_layer.c:704-760 | a write that runs out of blocks leaves every other path, directory and file as it was |
| Changes.CreateStopped | src/interface_layer.c:141-147 | so does a create that finds no room for its entry |
| Changes.DirStopped | src/interface_layer.c:212-217 | so does making a directory that finds no room for its own entries; the directory itself is there, empty |
| Models.SameShapes | src/directory_ops.c:286-338 | what paths show depends only on which inodes are directories, their records and the contents |
| Models.LastMade | src/interface_layer.c:192-396 | what was made last at a path is there, and nothing once it has been removed |
| Models.LastPut | src/interface_layer.c:602-761 | the bytes put last into a file are there, the others as they were, and a gap is zeros |
| Models.LastLength | src/interface_layer.c:763-848 | a length set last is there, with the bytes as far as there were any, then zeros |
| Sessions.ReadPath | src/interface_layer.c:471-600 | reads the slice of what is at the path, or returns the error |
| Sessions.WritePath | src/interface_layer.c:602-761 | the file at the path gets the new content, if and only if it fits; every other path shows what it showed. A write that does not fit returns how many bytes the blocks of the file hold of it, and leaves every other path, directory and file as it was |
| Sessions.TruncatePath | src/interface_layer.c:763-848 | the same for cutting and padding |
| Sessions.Mknod | src/interface_layer.c:294-321 | makes an empty file, of the smallest free inode, if and only if nothing is there, its parent is a directory and there is room; a refusal changes nothing, and without room no path shows a change |
| Sessions.Mkdir | src/interface_layer.c:192-237 | the same for a directory, which also needs a block for its own entries |
| Sessions.UnlinkPath | src/interface_layer.c:323-396 | which error for what; a directory is not empty exactly if a path leads on from it; otherwise nothing is at the path afterwards, and every other path shows what it showed |
| Sessions.ModelIs | src/directory_ops.c:286-338 | the model shows at every path what the disk shows, and counts the blocks of each inode and the free ones |
| Sessions.LeadsOnIff | src/interface_layer.c:183-190 | the stored record count tells whether a path leads on |
| Models.OtherPaths | src/interface_layer.c:192-848 | calls on other paths do not change what is at a path |
| Sessions.Perform | src/interface_layer.c:192-848 | a call succeeds if and only if it is not refused and there is room; then the file system is what the model makes of it, and its path, and only its path, shows its effect; a refusal changes nothing, and without room every other path, directory and file but one is as before |
| Sessions.RunCalls | src/interface_layer.c:192-848 | over every sequence of calls exactly those before the first that the model says cannot succeed are performed; the file system is then what the model makes of them, down to the number of free blocks, and every path shows what the calls made of it |
| Sessions.FormatAndRunCalls | src/interface_layer.c:192-848 | the same from a formatted device with an empty root |
| Sessions.FirstFile | src/interface_layer.c:294-321 | in a fresh file system a file with any name of 1 to 255 bytes can be made |
| Sessions.OftenAllowed | src/interface_layer.c:192-848 | the model never bars making something, putting bytes into a file, or, while blocks are free, removing and cutting at block 524 or before |

## Left out

- Truncate: a shrink whose cut lies in the double indirect region is covered only where `RemovalExactIff` says that the cut is exact; in the other cases the index tree that is left is not well formed.
- RemoveDatablocksFromInode: cuts inside the triple indirect region, and cuts inside the double region of a file that reaches the triple one, are not modelled; the source calls the former buggy, and the latter compares an end count that has already been reduced.
- GetDiskBlock: negative logical blocks and the block behind a completely full map index outside the arrays in C and are excluded.
- Shrink: the same as Truncate.
- RemoveFromDouble: files that reach the triple region are excluded, as above, and so is an empty free list, into which nothing can be freed soundly (`FreeOnEmptyBreaks`).
- CreateSuperblock: the inode count and the inodes per block are constants of the model.
- Write: a write that runs out of blocks can leave a data block that no file has, and index blocks without data, as in the program; the file system invariant is not promised for that file.
- CreateNewFile: when the entry cannot be made the directory block taken on the way may be lost, and the index blocks taken with it, because the program does not write the parent's record back; inode numbers are assumed to fit in a word.
- Unlink: a file that is removed is assumed to have no other name (`SoleName`), as the program makes no hard links.
- WritePath: writing to and truncating a directory, which the program does not refuse, is excluded.
- RunCalls: after a call that has run out of room the index tree of the one file or directory it was changing is not promised to be well formed; paths are sequences of components without "." and "..".
- Read: the rest of the caller's buffer, which the program zeroes first, and the new access time are not modelled.
- The inode cache; `NameI` always searches the directories.
- `overwrite_datablock_to_inode`, which nothing calls.
- `altfs_rename`, `altfs_open`, `altfs_chmod`, `altfs_access`, `altfs_getattr` and `altfs_readdir`; permissions, owners and times.
- The FUSE layer, device I/O and its failures, logging, host memory; the disk is an array of blocks.
- The bytes of the superblock and of inodes: they are fields and records, and `inodeBlocks` and `perBlock` stand for the computed `INODE_BLOCK_COUNT` and inodes per block.
- C integer widths, except that directory records hold a 16-bit length and a 64-bit inode number; words are stored least significant byte first, as on the machines the program targets.
- Buffers on the C stack are values, so a buffer that a method passes on is copied.
