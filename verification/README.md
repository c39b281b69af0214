# APFS storage engine: a verified model

This project models the storage engine of an APFS image tool in Dafny and proves what its parts promise each
other. It follows the six files that hold the engine: the bulk writer (`src/apfs_write.rs`), copy-on-write
file replacement (`src/apfs_replace.rs`), in-place update under a snapshot (`src/apfs_update.rs`), the reader
(`src/apfs_read.rs`), the verifier (`src/apfs_verify.rs`) and the image primitives (`src/apfs_image.rs`).
The on-disk formats are those of the *Apple File System Reference*; compressed data follows RFC 1951.

Code that updates things step by step is imperative here too: classes with `modifies` clauses for the
allocators, rings, volumes and bit reader, arrays for the buffers that are filled in place, loops with
invariants for the loops. Each is proved against a specification function, and the promises are lemmas about
that function or invariants of the class. Blocks are sequences of bytes, a device is a map from block number
to block, 16-, 32- and 64-bit limits appear as explicit bounds, and every error return is a `Result`.

| module | what it models |
|---|---|
| `Bytes` | little-endian fields, patches, padding, arithmetic shared by the others |
| `Fletcher` | the Fletcher-64 seal and its check |
| `TreeNode`, `BTree` | the byte layout of one B-tree node; a stored tree |
| `TreeWriter`, `TreeReader`, `TreeRoundTrip` | bulk writing, reading back, both together |
| `CatalogSearch` | the pruned search for one object's records |
| `ObjectMap` | versions of an object and how a transaction resolves it |
| `SpaceManager`, `SpacemanCommit`, `BlockSupply`, `SpaceBudget`, `TreePublish` | the update's allocator, its commit, what a run of allocations costs, trees drawn from it |
| `SnapshotUpdate`, `VolumeUpdate`, `VolumeRun`, `VolumeStart` | whole runs of updates of a volume with a frozen snapshot; one update together with the catalog that locates its files; runs of those; a volume to start from |
| `ContainerUpdate`, `PayloadPaths` | the whole update: two volumes on one space manager, its commit, a new checkpoint; which payloads are accepted and the changes they become |
| `IpRing`, `BlockAllocator`, `AllocatorLoad`, `ReplaceTransaction` | the replacement's allocator, bitmap ring and transaction |
| `StreamDetach`, `StreamWrite`, `FileReplace` | the replacement's records: a file's streams detached, new data written, the whole |
| `CheckpointRing` | the ring of checkpoint descriptors |
| `SpacemanBuild` | the initial space manager and the checks of the verifier |
| `Huffman`, `Inflate` | the DEFLATE decoder |
| `ExtentReader`, `InodeFields`, `FreeQueue`, `QueueTree` | extents, inode fields, deferred frees and the leaf that holds them |
| `DirectoryKey`, `SortKey` | directory keys byte by byte, key order |
| `CatalogRecords`, `CatalogWalk`, `Catalog`, `PathSet` | the records of a catalog and lookups in them; creating a path step by step; the volume that does it; paths created one after the other |

Where the code does not do what one would expect, the code is modelled as it is, an input shows the
difference and the exact condition is proved:

- The checksum test looks at the plain sum of words only. It is blind to the order of words
  (`Fletcher.CheckIgnoresOrder`), and a block passes without carrying its own checksum
  (`Fletcher.UnsealedBlockPasses`); `Fletcher.ValidVersusGenuine` says which passing blocks do.
- The size test of a fixed-size node implies room for its table of contents exactly when
  `(bs - 56) % (4 + ks + vs) < ks + vs` (`TreeNode.FixedTocCondition`). That holds at 4096 bytes and fails at
  65536 bytes with 16-byte keys and values (`TreeNode.TocOverflowsAt65536`).
- A node entry with an empty key flush with the end of the values is refused although it was written; only
  records with neither key nor value can do that (`TreeNode.EntryEncoded`), and a root full of them decodes
  while every entry is refused (`TreeNode.BlankRoot`).
- The writer's (object id, block) pairs form a function exactly when the root's id is not handed out again
  (`TreeRoundTrip.MappingsFunctional`, `TreeRoundTrip.RootIdReused`); the map collected from them serves a
  reader that starts at the root either way (`TreeRoundTrip.CollectedServes`).
- Snapshot protection compares starting blocks only. Whatever the state of the volume, rewriting a file spares
  every snapshot block exactly when its extent is empty, starts where a snapshot extent does, or overlaps none
  (`SnapshotUpdate.Volume.Rewrite`); a file that starts inside a snapshot extent is rewritten over it
  (`SnapshotUpdate.InnerStartRun`).
- The resolver of the verifier ignores the deleted flag and the lookup of a replacement honours it, so they
  agree exactly on objects whose newest version is not deleted (`ObjectMap.LookupAgrees`,
  `ObjectMap.DeletedResolves`). The lookup of an update takes the last record whatever its transaction; that is
  the newest visible version exactly when it is visible and none visible is newer
  (`ObjectMap.LastIsNewestIff`), which sorted maps ensure (`ObjectMap.LastIsNewest`) and others need not
  (`ObjectMap.UnsortedMisleads`).
- A bitmap ring of two slots passes the verifier and is refused by every commit (`IpRing.TwoSlots`,
  `IpRing.Ring.Rotate`); a descriptor ring of three slots loses the previous checkpoint's map with every update
  (`CheckpointRing.ThreeSlotsLoseOne`).
- The bitmap reserve is sufficient whenever `3 * chunks + 3` blocks fit a chunk, and can fall short
  otherwise (`SpacemanBuild.ReserveSuffices`, `SpacemanBuild.ReserveFallsShort`); `SpacemanBuild.ReserveExact` says when.
- Where extents overlap, the windowed reader takes the first and the whole-file reader the last
  (`ExtentReader.ReadersAgree`, `ExtentReader.OverlapDiffers`).
- The hashed sort key orders two plain names as the verifier does exactly when their first two bytes do not
  pull in different directions (`SortKey.PlainNamesOrder`), so a list of plain names sorted by it passes the verifier
  exactly when that holds for all neighbours (`SortKey.PlainListPasses`, `SortKey.PlainNamesNeedOwnKey`). A
  list sorted by its own key passes exactly when neighbours have different sort keys (`SortKey.SortedPasses`).
- Directory keys are always written in the hashed layout. On a volume with plain keys a written name can be
  read back exactly if six bits of its hash are zero and the other bits and the name spell the name
  (`CatalogRecords.LegibleExact`, `CatalogRecords.PlainLegible`); no name of three bytes or more whose first and
  third differ can (`CatalogRecords.NeverPlain`). `ensure_file_records` taken alone accepts such a name and makes a file
  that is not found under it (`Catalog.PlainFileLost`). An update looks the file up right afterwards, so it succeeds only
  if the layout can read every name (`VolumeUpdate.Files.Reach`); plain keys cannot read the path of the boot object, so
  every update of a plain volume is refused and publishes nothing (`PayloadPaths.PlainUnreadable`,
  `PayloadPaths.UpdatePlain`, `PayloadPaths.UpdateWithPayloads`).
- A hashed key has ten bits for the length of a name (`Catalog.HashedReads`). Taken alone, `ensure_file_records` stores
  a name of 1023 bytes with length zero (`Catalog.LongNameLost`) and reads a name with 1024 bytes appended back as the
  name, so that a directory lists one name twice (`Catalog.NameTwice`); names stay unique exactly when the new
  entry reads as no name or as one its directory does not have (`Catalog.UniqueIff`), and a path that passes no directory
  twice resolves afterwards exactly when the layout can read every name (`Catalog.Volume.EnsureFileRecords`). No update
  gets there: payload names have at most 255 bytes, which hashed keys can read (`PayloadPaths.ValidatePaths`,
  `PayloadPaths.HashedReadable`).
- `free_range` that runs into a free block leaves the blocks before it cleared, with no count changed. A refusal
  is harmless exactly when the run lies in no bitmap-carrying chunk or its first block is free
  (`SpaceManager.SpacemanContext.FreeRange`, `SpaceManager.StoppedMeans`, `SpaceManager.RefusedRelease`).

## Model

| member | source | states |
|---|---|---|
| Fletcher.FletcherSums | src/apfs_image.rs:295-303 | the two loop variables end as the total of all words and the sum of all prefix totals, modulo 2^32 - 1 |
| Fletcher.Fletcher64 | src/apfs_image.rs:279-284 | the checksum packs the two words that cancel both sums of the body |
| Fletcher.Seal | src/apfs_image.rs:286-289 | sealing in place changes the first eight bytes to the checksum and nothing else |
| Fletcher.ChecksumValid | src/apfs_image.rs:291-293 | a block passes exactly when its length is a multiple of 4, at least 8, and its words sum to zero modulo 2^32 - 1 |
| Fletcher.SealMakesValid | src/apfs_image.rs:286-293 | every sealed block of admissible length passes the check |
| Fletcher.ChecksumPairUnique | src/apfs_image.rs:279-284 | two appended words make both sums vanish if and only if they are congruent to the checksum's words |
| Fletcher.OneWordChange | src/apfs_verify.rs:656-667 | changing one aligned word of a valid block keeps it valid iff the difference is a multiple of 2^32 - 1, that is iff the word is unchanged or 0 and 2^32 - 1 change places |
| Fletcher.CheckIgnoresOrder | src/apfs_verify.rs:656-667 | swapping any two words of a block never changes the verdict |
| Fletcher.ValidVersusGenuine | src/apfs_verify.rs:656-667 | a block carries its own checksum iff it passes and the second sum vanishes too |
| Fletcher.UnsealedBlockPasses | src/apfs_verify.rs:656-667 | a concrete block passes the check without carrying its own checksum |
| TreeNode.StoreEntries | src/apfs_write.rs:671-691 | table entries, keys and values land in disjoint places, table growing up and values down; it stops at the first record of a wrong size |
| TreeNode.EncodeTreeNode | src/apfs_write.rs:638-706 | refuses exactly records that do not fit or have a wrong size; otherwise the node holds every record in its place |
| TreeNode.FixedTocCondition | src/apfs_write.rs:604-636 | every record list that passes the size test has room for its table of contents iff the remainder condition holds |
| TreeNode.RootTocFits | src/apfs_write.rs:604-636 | a root that passes the size test always has room for its table |
| TreeNode.TocRoomAt4096 | src/apfs_write.rs:604-636 | at 4096 bytes the condition holds for the three fixed layouts in use, at every level |
| TreeNode.TocOverflowsAt65536 | src/apfs_write.rs:604-636 | at 65536 bytes with 16-byte keys and values it fails |
| TreeNode.DecodeEncoded | src/apfs_verify.rs:849-906 | decoding an encoded node recovers level, key count, areas and entry format; a node whose table does not fit is refused |
| TreeNode.EntryEncoded | src/apfs_verify.rs:908-958 | entry i of an encoded node is record i, or with fixed sizes begins with it; it is refused iff the key is empty and ends where the values do, which takes an empty value too |
| TreeNode.BlankRoot | src/apfs_verify.rs:908-958 | 500 records without key or value fill a root of 4096 bytes that decodes, and every entry of it is refused |
| BTree.Seal | src/apfs_write.rs:257-264 | the block with its object header and checksum, as the sealing function says |
| BTree.SealedFields | src/apfs_write.rs:257-264 | a sealed block passes the check, carries object id, type and subtype, and keeps everything after the header |
| BTree.SealedNodeHolds | src/apfs_verify.rs:849-958 | a sealed node passes the checksum and readers see exactly the records encoded |
| TreeReader.ReadEntries | src/apfs_replace.rs:107-132 | a node's records, or its children's blocks through the object map; refused only if some entry is bad |
| TreeReader.VisitBlock | src/apfs_replace.rs:94-132 | checks, decodes and reads one block; fails exactly when the block says nothing a reader could use |
| TreeReader.ReadTree | src/apfs_replace.rs:62-136 | on any blocks: terminates, and succeeds exactly when they unfold from the root to some tree without meeting a block twice; then returns that tree's records in order, its nodes in preorder and the layout the root announces |
| TreeReader.Rebuild | src/apfs_replace.rs:84-134 | the log of a walk that ends folds back into the one tree the blocks unfold to |
| TreeReader.StoredUnfolds | src/apfs_replace.rs:84-134 | the blocks of a stored tree unfold to it |
| TreeReader.ReadableLeads | src/apfs_replace.rs:62-136 | so a stored tree whose inner nodes the object map finds is read back |
| TreeWriter.TreeStore.Alloc | src/apfs_write.rs:708-725 | hands out the supply in order and fails exactly when it is empty |
| TreeWriter.WriteNode | src/apfs_write.rs:780-797 | fails exactly when the node cannot be encoded; otherwise the block holds the sealed node and nothing else changed |
| TreeWriter.GreedyEnd | src/apfs_write.rs:757-771 | the run packed fits a node, and one entry more would not |
| TreeWriter.WriteLevel | src/apfs_write.rs:754-802 | one level: the trees made have the level's records in order, one separator each with the first key; about half as many where two separators fit; succeeds whenever every entry fits a node and blocks and ids suffice |
| TreeWriter.Longest | src/apfs_write.rs:743-748 | the longest key and value, as recorded in the root |
| TreeWriter.WriteRoot | src/apfs_write.rs:809-814 | the last level goes into the block drawn first; refused exactly when it does not fit one root or a record has a wrong size; the store then holds the whole tree |
| TreeWriter.WriteTree | src/apfs_write.rs:727-815 | on success the store holds a tree with exactly the records, each child one level below its parent, every node in its own fresh block and listed once, all other blocks untouched; the blocks drawn and listed are right for any records, the tree for records that are not wholly empty; it terminates, succeeds whenever the input is roomy, with at most 3n + 1 nodes, and with one block exactly when one root holds the records |
| TreeWriter.PackStep | src/apfs_write.rs:772-801 | packing the next entries into a new node keeps levels, order and the list of nodes right |
| TreeWriter.TrackOn | src/apfs_write.rs:803-807 | each level is at least half as short as the one below, so the level counter never overflows and the level is strictly shorter |
| TreeWriter.ObjectMapRoomy | src/apfs_write.rs:727-815 | at 4096 bytes writing an object map can only fail for lack of blocks or ids |
| TreeWriter.CatalogRoomy | src/apfs_write.rs:727-815 | so can writing a catalog with keys up to 1980 and records up to 3976 bytes |
| CatalogSearch.OpenNode | src/apfs_read.rs:1382-1409 | a node is opened exactly when block, checksum, object type, decoding and level are right |
| CatalogSearch.ReadPrefixes | src/apfs_read.rs:1411-1426 | the (object id, kind) prefixes of all entries; refused exactly when an entry is bad |
| CatalogSearch.TakeMatching | src/apfs_read.rs:1428-1445 | takes every entry of the prefix, in order; refused only above the record limit |
| CatalogSearch.PushChildren | src/apfs_read.rs:1446-1470 | pushes exactly the children the prefix test lets through |
| CatalogSearch.FirstKeyIsFirst | src/apfs_write.rs:800 | the separator of a child is the key of the first record below it |
| CatalogSearch.SkippedKid | src/apfs_read.rs:1446-1450 | a child passed over holds no record of the prefix, equal prefixes over several children included |
| CatalogSearch.ChosenSum | src/apfs_read.rs:1446-1470 | the children pushed hold all hits of an index node |
| CatalogSearch.FindRecords | src/apfs_read.rs:1363-1473 | on every tree in prefix order the pruned search returns exactly the multiset a full scan would keep, and refuses only above its node and record limits; it stops on every input |
| TreeRoundTrip.MappingsFunctional | src/apfs_write.rs:772-798 | the returned pairs can be looked up by object id iff the root's id is none of the ids handed out |
| TreeRoundTrip.CollectedServes | src/apfs_replace.rs:84-134 | collected into a map that keeps the later of two, the pairs lead the reader to every node below the root, whatever id the root has |
| TreeRoundTrip.RootIdReused | src/apfs_write.rs:772-798 | two blocks under one id when the root's id is handed out again |
| TreeRoundTrip.WrittenReadable | src/apfs_replace.rs:62-136 | every tree written meets the hypothesis of the reader |
| TreeRoundTrip.WrittenSearchable | src/apfs_read.rs:1363-1473 | a catalog written from records in prefix order meets the hypothesis of the search |
| TreeRoundTrip.WriteThenRead | src/apfs_write.rs:727-815 | writing any record list without wholly empty records, under any root id, and reading it back gives the same list, layout and one node per allocation, for physical and virtual trees; roomy lists are always accepted |
| ObjectMap.NewestIsLast | src/apfs_verify.rs:1083-1090 | among equally new visible versions the last in the list is chosen |
| ObjectMap.NewestIsNewest | src/apfs_verify.rs:1083-1090 | the version chosen is visible, none visible is newer, and there is none only if none is visible |
| ObjectMap.ResolveByVersions | src/apfs_verify.rs:1083-1090 | what an object resolves to as of x depends only on its versions up to x |
| ObjectMap.SortKeepsVersions | src/apfs_update.rs:865 | the stable sort changes neither entries nor any resolution |
| ObjectMap.AddMappings | src/apfs_update.rs:856-865 | replaces this transaction's entries of the new nodes, leaves every other version, and leaves the map sorted |
| ObjectMap.EarlierUnchanged | src/apfs_update.rs:856-865 | every transaction below the new one resolves every object as before |
| ObjectMap.NewResolved | src/apfs_update.rs:856-865 | the new transaction resolves every rewritten object to its new block |
| ObjectMap.OmapRecordRoundTrip | src/apfs_replace.rs:165-172 | an entry stored as a record is read back as the same entry |
| ObjectMap.OmapRecordsRoundTrip | src/apfs_replace.rs:165-172 | so is a whole map |
| ObjectMap.Mappings | src/apfs_replace.rs:138-163 | the lookup of a replacement: the first newest version as of x, deleted objects left out; refused exactly on records of a wrong size |
| ObjectMap.FirstIsLast | src/apfs_replace.rs:138-163 | on maps with one entry per version the strict comparison and the verifier's pick the same entry |
| ObjectMap.LookupAgrees | src/apfs_replace.rs:138-163 | the lookup of a replacement and the resolver of the verifier agree on an object iff its newest visible version is not deleted |
| ObjectMap.DeletedResolves | src/apfs_replace.rs:138-163 | a deleted object that still resolves |
| ObjectMap.VolumeMappings | src/apfs_update.rs:193-208 | the lookup of an update: the last record of each object; refused exactly on short records |
| ObjectMap.LastIsNewest | src/apfs_update.rs:193-208 | on a sorted map without later transactions the lookup of an update answers as the resolver does |
| ObjectMap.LastIsNewestIff | src/apfs_update.rs:193-208 | the last record of an object is its newest visible version iff there is none, or it is visible and none visible is newer |
| ObjectMap.UnsortedMisleads | src/apfs_update.rs:193-208 | a map out of order on which the last record is not the newest version |
| SpaceManager.FindRun | src/apfs_update.rs:549-566 | the first clear run of n bits, or none exists |
| SpaceManager.CountFree | src/apfs_replace.rs:252-254 | the number of clear bits among the first `count` |
| SpaceManager.CountSetRun | src/apfs_update.rs:568-571 | flipping a uniform run moves the count of clear bits by its length |
| SpaceManager.FlipChunks | src/apfs_update.rs:506-581 | flipping a run in one chunk moves exactly those blocks in or out of use, the chunk's count and the total by its length |
| SpaceManager.SpacemanContext.constructor | src/apfs_update.rs:495-504 | a context starts with no net change |
| SpaceManager.SpacemanContext.AllocRange | src/apfs_update.rs:541-581 | first fit: fails, changing nothing, exactly when no bitmap-carrying chunk has a clear run; otherwise the run was wholly clear, exactly it is taken, counts and net change follow, and the changed chunk and its chunk-info block are marked |
| SpaceManager.SpacemanContext.FreeRange | src/apfs_update.rs:506-539 | succeeds exactly on allocated blocks within one bitmap-carrying chunk, frees exactly those, counts follow and the change is marked; a refusal changes no count, and changes nothing at all, and keeps the context valid, iff the run lies in no such chunk or its first block is free |
| SpaceManager.StoppedMeans | src/apfs_update.rs:526-533 | a release stopped after k blocks has cleared exactly those k blocks and no count, and leaves the free counts true iff k is zero |
| SpaceManager.RefusedRelease | src/apfs_update.rs:506-539 | a concrete release that is refused and leaves a block cleared but not counted |
| SpaceManager.UsedIsFreeable | src/apfs_update.rs:506-539 | a run inside one chunk whose blocks are all in use can be freed |
| SpaceManager.Perform | src/apfs_update.rs:506-581 | one request keeps the account and says when it is served |
| SpaceManager.Replay | src/apfs_update.rs:506-581 | any mix of requests: runs held are disjoint from each other and from what was in use, together they are what is in use, counts stay true, the net change is exact, every release succeeds, every change is marked |
| SpacemanCommit.Parse | src/apfs_update.rs:407-504 | accepts exactly metadata that describes some chunks in the declared number, and returns those chunks |
| SpacemanCommit.Commit | src/apfs_update.rs:583-616 | writing back only what is marked makes the metadata describe the chunks in memory; fails exactly when the free count would go negative; only blocks of changed chunks and chunk-info blocks are written |
| SpacemanCommit.Session | src/apfs_update.rs:406-616 | parse, any mix of allocations and releases, commit, parse again: nothing fails, the second parse finds the state in memory, the recorded free count is the number of clear blocks, and what is in use is what was plus the runs held |
| BlockSupply.SupplyDraw | src/apfs_update.rs:743-770 | a single-block first fit takes the head of a fixed list of clear blocks and leaves the rest |
| BlockSupply.SupplyEmpty | src/apfs_update.rs:743-770 | the list is empty exactly when no chunk has a clear block |
| BlockSupply.SupplyFacts | src/apfs_update.rs:743-770 | it is ascending and none of it is in use |
| BlockSupply.SupplyFresh | src/apfs_update.rs:743-770 | so it is what the tree writer needs of its store |
| BlockSupply.SupplySize | src/apfs_replace.rs:286-309 | with a bitmap for every chunk it is as long as the free count says |
| SpaceBudget.StockMoves | src/apfs_update.rs:506-581 | the number of blocks that can be drawn moves as the free count does, chunks without a bitmap aside |
| SpaceBudget.RunLeft | src/apfs_update.rs:541-581 | first fit of n blocks leaves, of any longer clear run, all but n at least, wherever it took them |
| SpaceBudget.ShrunkOne | src/apfs_update.rs:541-581 | one block by first fit costs the stock one block and shortens the longest clear run by at most one |
| SpaceBudget.Draw | src/apfs_update.rs:743-770 | n draws give the first n blocks of the supply, put exactly those in use and leave, of any longer clear run, all but n at least |
| SpaceBudget.MoveSpent | src/apfs_update.rs:805-811 | releasing blocks and taking n keeps the shape of the chunks, costs the stock and every clear run at most n, and puts the file within one chunk |
| TreePublish.TreeAdded | src/apfs_update.rs:839-855 | a tree written into drawn blocks touches nothing that was in use and is wholly inside them |
| TreePublish.HeldStays | src/apfs_update.rs:839-855 | a tree stays as it is while its blocks do |
| SnapshotUpdate.CutJoins | src/apfs_update.rs:106-122 | the blocks written are the data followed by zeros |
| SnapshotUpdate.Volume.constructor | src/apfs_update.rs:772-790 | a volume starts valid, with exactly the fields it was given and no published catalog |
| SnapshotUpdate.MovedSound | src/apfs_update.rs:791-829 | the inductive invariant: moving a file keeps every live extent a snapshot extent or disjoint from all that is pinned |
| SnapshotUpdate.Volume.Fill | src/apfs_update.rs:100-122 | fails, changing nothing, exactly when blocks are missing or the data is too long; writes exactly the extent |
| SnapshotUpdate.Volume.Relocate | src/apfs_update.rs:805-811 | releases and zeroes only an unprotected extent, then takes a clear run; when it must succeed |
| SnapshotUpdate.Volume.Rewrite | src/apfs_update.rs:794-812 | a file in any extent, on a volume in any state: the exact outcome in place or moved, and the snapshot's blocks are spared iff the extent is empty, starts where a snapshot extent does, or overlaps none |
| SnapshotUpdate.Volume.UpdateFile | src/apfs_update.rs:794-812 | the file reads back as the data, in place exactly if unprotected and of equal size, else in a new run with the old extent freed and zeroed unless protected; nothing pinned, no header and no other file changes; blocks in use are accounted for exactly; when it must succeed |
| SnapshotUpdate.Volume.UpdateFiles | src/apfs_update.rs:791-829 | a list of rewrites: each file reads back as its last change, all others are unchanged; succeeds when all stay in place, and when one clear run covers all of them, which is then shorter by no more than their blocks |
| SnapshotUpdate.FeasibleMove | src/apfs_update.rs:801-811 | with chunks side by side, loose files within a chunk and a clear run of the blocks needed, a file can be moved |
| SnapshotUpdate.FeasibleAfter | src/apfs_update.rs:801-811 | after the move the same holds for the blocks still needed |
| SnapshotUpdate.FeasiblePublished | src/apfs_update.rs:830-901 | drawing blocks for trees leaves moves feasible for the blocks not drawn |
| SnapshotUpdate.ReadyFirst | src/apfs_update.rs:1027-1186 | the first update of a run that is ready can be served |
| SnapshotUpdate.ReadyRest | src/apfs_update.rs:1027-1186 | after it the rest of the run is ready |
| SnapshotUpdate.Volume.PublishTree | src/apfs_update.rs:839-855 | a tree goes to blocks that were free; when it must succeed |
| SnapshotUpdate.Volume.WriteOut | src/apfs_update.rs:830-901 | catalog, map and extent references go to free blocks, apart from all that was pinned, the map resolves the new nodes at the new transaction and everything as before below it; when it must succeed |
| SnapshotUpdate.Volume.Publish | src/apfs_update.rs:830-901 | the new catalog joins the history; nothing pinned changes; succeeds whenever the free blocks cover the three trees, and then what clear runs and ids are left is bounded below |
| SnapshotUpdate.Volume.AddFile | src/apfs_update.rs:730-733 | a new file with an empty extent keeps the invariant |
| SnapshotUpdate.Volume.Update | src/apfs_update.rs:772-901 | one update: pinned blocks unchanged, earlier resolutions unchanged, changed files read back, others unchanged, the new catalog holds exactly the records; it succeeds when all files stay in place or one clear run covers all moves, and the blocks left cover the three trees; it says what is left then |
| SnapshotUpdate.Run | src/apfs_update.rs:1027-1186 | any run of updates: no block of the snapshot or of any published tree ever changes, no earlier resolution changes, every update's catalog stays readable; all of them succeed if at the start one clear run covers every move and every tree of the run, ids and transaction numbers suffice and the records fit nodes |
| SnapshotUpdate.PastReadable | src/apfs_update.rs:124-183 | every catalog ever published is read back through its own transaction |
| SnapshotUpdate.SnapshotIntact | src/apfs_update.rs:345-364 | with pinned blocks unchanged the snapshot's files read as before and stay in use |
| SnapshotUpdate.InnerStartRun | src/apfs_update.rs:656-668 | a concrete volume whose file starts inside a snapshot extent: rewriting it changes a byte of the snapshot |
| SnapshotUpdate.HistoryStays | src/apfs_update.rs:830-901 | what keeps pinned blocks and earlier resolutions keeps every published catalog |
| VolumeUpdate.TiedMade | src/apfs_update.rs:792-793 | after a path is made, the objects the catalog can locate are the files known before and at most one new, empty one |
| VolumeUpdate.FiledLocated | src/apfs_update.rs:813-819 | rewriting an inode's sizes and its extent record moves where that object is located and nothing else |
| VolumeUpdate.FiledWellFormed | src/apfs_update.rs:813-819 | and keeps the catalog well-formed |
| VolumeUpdate.MovedReferenced | src/apfs_update.rs:820-828 | dropping and pushing extent references leaves every file with exactly one, its own |
| VolumeUpdate.SortedRefs | src/apfs_update.rs:830 | the sort keeps the references of every block |
| VolumeUpdate.ProspectOn | src/apfs_update.rs:791-829 | one change done, the changes still to come are possible |
| VolumeUpdate.AffordableThen | src/apfs_update.rs:830-901 | after all changes the blocks and ids left cover the three trees |
| VolumeUpdate.Files.constructor | src/apfs_update.rs:782-790 | a volume whose catalog and references match its files starts valid, with the fields it was given |
| VolumeUpdate.Files.Reach | src/apfs_update.rs:792-793 | a path leads to a file, made if need be, and exactly the missing names are added; no content changes and every path leads where it did; whatever the names, on a path that passes no directory twice it succeeds exactly if the layout can read every name, the path is acceptable and its file can be located |
| VolumeUpdate.Files.Store | src/apfs_update.rs:794-828 | the file's content is the data, read through the catalog; every other file's content is kept; catalog, references and file extents still match; succeeds when a clear run covers the data |
| VolumeUpdate.Files.UpdateOne | src/apfs_update.rs:791-829 | both together, and files move only out of snapshot extents; refused if the layout cannot read a name; it succeeds if it can, the path is open and a clear run covers the data, and leaves the paths still to come open |
| VolumeUpdate.Files.UpdateAll | src/apfs_update.rs:791-829 | any list of changes: every path leads to its data unless a later path leads to the same file; all other files keep their content; refused if the layout cannot read some name; they succeed if it can read all, the paths are open, none in another's way, and one clear run covers all the data |
| VolumeUpdate.Files.PublishAll | src/apfs_update.rs:830-901 | sorts the references and publishes; no content and nothing pinned changes, the catalog published decodes to the records; when it must succeed |
| VolumeUpdate.Files.Update | src/apfs_update.rs:772-901 | records that fit their fields are published and decode to themselves, and by them every path leads to an extent holding exactly its data; nothing pinned changes, the new trees lie in blocks not pinned before, and catalog, references and files match again; with a name the layout cannot read it is refused and publishes nothing; it succeeds if all names can be read, the paths are open, one clear run covers data and trees, ids suffice and the records fit |
| VolumeRun.StoredAfter | src/apfs_update.rs:791-829 | after two lists of changes every path leads to the bytes last stored in its file by either |
| VolumeRun.LeadOn | src/apfs_update.rs:830-901 | one more published catalog leads the paths of its batch to their files, the earlier ones still theirs |
| VolumeRun.ReadyFirst | src/apfs_update.rs:1027-1186 | the first batch of a run that is ready can be served |
| VolumeRun.ReadyRest | src/apfs_update.rs:1027-1186 | after it the rest of the run is ready |
| VolumeRun.Run | src/apfs_update.rs:1027-1186 | any run of updates of paths: in the end every path ever written leads to the bytes last stored in its file, files never written hold what they held, every path leads where it led; no pinned block changes, earlier transactions resolve as before, and every catalog published on the way leads the paths of its batch to their files; it stops at the first batch with a name the layout cannot read; all updates succeed if all names can be read and at the start all paths are open and none is in another's way, one clear run covers all data and trees of the run, ids and transaction numbers suffice and the records fit |
| VolumeStart.NewFiles | src/apfs_update.rs:772-790 | from any valid space manager with a free block: a valid volume with a bare root, its map in a block that was free, everything else in use unchanged and pinned but the headers |
| VolumeStart.BareOpen | src/apfs_update.rs:670-741 | on it any ASCII paths can be created of which none is in another's way |
| ContainerUpdate.HandOver | src/apfs_update.rs:1162-1183 | when one volume has gone on, the other is sound on the new device and each again lies in blocks the other may not change |
| ContainerUpdate.ThenSecond | src/apfs_update.rs:1162-1183 | after the first volume's update there is still enough for the second |
| ContainerUpdate.UpdateBeside | src/apfs_update.rs:1162-1172 | one volume updated beside the other: the other keeps all its files and trees |
| ContainerUpdate.UpdateBoth | src/apfs_update.rs:1162-1183 | both volumes: every path of either list leads to its data, all other files of both hold what they held, both catalogs are published as one transaction, and no block both had to leave alone changes; when it must succeed |
| ContainerUpdate.CommitSpace | src/apfs_update.rs:1185 | after any updates the commit succeeds, and the second parse finds exactly the blocks in use and a free count equal to the clear blocks |
| ContainerUpdate.UpdateContainer | src/apfs_update.rs:1132-1186 | the whole update: both volumes as above, the second parse finds the committed counts, and the checkpoint appended is the one the next mount finds; if it fails no checkpoint is appended; when it must succeed |
| ContainerUpdate.NewPair | src/apfs_update.rs:1162-1183 | two volumes with snapshots on one space manager that meet all of this |
| PayloadPaths.BeginsIff | src/apfs_write.rs:1499-1506 | a path text begins with another and a slash exactly when its parts begin with the other's |
| PayloadPaths.ValidatePaths | src/apfs_write.rs:1468-1512 | accepts exactly payloads with good parts, no path twice up to case, and none equal to, above or below a reserved or another path, version files restated aside |
| PayloadPaths.ApartCompatible | src/apfs_write.rs:1499-1506 | paths whose texts do not clash are in nobody's way, below any directory |
| PayloadPaths.SystemPayloads | src/apfs_update.rs:1134-1150 | the changes of the System volume: boot object, version file, every payload; none in another's way |
| PayloadPaths.PrebootPayloads | src/apfs_update.rs:1135-1161 | those of the Preboot volume, below the group's directory, version files left out |
| PayloadPaths.HashedReadable | src/apfs_write.rs:1479-1490 | hashed keys can read the names of every list so made |
| PayloadPaths.AcceptedOpen | src/apfs_update.rs:670-741 | on a volume with a bare root all its paths can be created one after the other |
| PayloadPaths.PlainUnreadable | src/apfs_update.rs:792-793 | plain keys cannot read the path of the boot object on either volume |
| PayloadPaths.UpdatePlain | src/apfs_update.rs:772-793 | an update of a plain volume is refused and publishes nothing |
| PayloadPaths.UpdateWithPayloads | src/apfs_update.rs:1027-1186 | from payloads to checkpoint: succeeds only for accepted payloads on volumes with hashed keys; then boot object, version file and every payload lead to their data; otherwise no checkpoint is appended; when it must succeed |
| IpRing.Pigeonhole | src/apfs_verify.rs:2392-2396 | distinct numbers below n are at most n, and n of them are all |
| IpRing.ChainUnique | src/apfs_verify.rs:2363-2391 | the free chain is determined by the array and its head |
| IpRing.Ring.Rotate | src/apfs_replace.rs:361-394 | keeps the partition into live slot and acyclic free chain ending at the tail; the head becomes live, the old live slot goes to the end; refused exactly below three slots |
| IpRing.TwoSlots | src/apfs_replace.rs:367-381 | a ring of two slots, live slot and free chain a partition of it, that the verifier accepts and a commit refuses |
| IpRing.RotateGuard | src/apfs_replace.rs:367-381 | on a partitioned ring the two refusals mean exactly fewer than three slots |
| IpRing.Transactions | src/apfs_replace.rs:361-394 | in any run two transactions write the same slot iff they are a multiple of the ring size apart |
| IpRing.RoundAndRound | src/apfs_replace.rs:361-394 | writing a cycle of distinct slots repeats one exactly after full rounds |
| IpRing.WalkChain | src/apfs_verify.rs:2363-2391 | the walk finds a chain of distinct slots from head to tail, or no partition exists |
| IpRing.VerifyRing | src/apfs_verify.rs:2296-2405 | accepts exactly the rings that some chain partitions, with live bitmaps no newer than the checkpoint |
| IpRing.CountDecides | src/apfs_verify.rs:2392-2396 | the walked chain covers the rest iff the counts add up |
| BlockAllocator.Allocator.constructor | src/apfs_replace.rs:276-283 | an allocator over recorded chunks starts valid, with exactly the fields it was given, a free count equal to the clear bits and nothing taken |
| BlockAllocator.Allocator.Allocate | src/apfs_replace.rs:286-309 | fails, changing nothing, exactly when no block is free; otherwise takes a block that was free and exactly it, chunk and total counts staying equal to the clear bits |
| BlockAllocator.Allocator.Place | src/apfs_replace.rs:311-318 | takes the first free pool block; fails exactly when there is none |
| BlockAllocator.Allocator.WriteBitmaps | src/apfs_replace.rs:332-348 | every changed bitmap goes to its own free pool block; fails exactly when the pool is too full; the old blocks are retired |
| BlockAllocator.Allocator.WriteCibs | src/apfs_replace.rs:349-360 | so does every chunk-info block of a changed chunk |
| BlockAllocator.Allocator.Commit | src/apfs_replace.rs:320-396 | the exact success condition; every block written was free in the pool, or is the non-live ring head, each once; the metadata then describes the chunks in memory and the live slot the pool |
| BlockAllocator.OldMetadataIntact | src/apfs_replace.rs:320-396 | the metadata and pool bitmap of the previous checkpoint survive a commit |
| AllocatorLoad.Load | src/apfs_replace.rs:194-284 | accepts exactly metadata that records chunks tiling the device with free counts equal to the clear bits, and returns those chunks |
| AllocatorLoad.BackedRecords | src/apfs_replace.rs:320-396 | metadata that describes the chunks in memory records them |
| AllocatorLoad.InfosAt | src/apfs_replace.rs:229-272 | the records of a chunk-info block are those of its chunks, in order |
| AllocatorLoad.CommitThenLoad | src/apfs_replace.rs:194-396 | loading after a commit gives back the allocator's chunks and bitmap blocks |
| ReplaceTransaction.DrawBlocks | src/apfs_replace.rs:286-309 | n single allocations give the first n clear blocks |
| ReplaceTransaction.Perform | src/apfs_replace.rs:915-1088 | one step: a data block or a whole tree in blocks that were free; succeeds whenever the free count covers it |
| ReplaceTransaction.Transact | src/apfs_replace.rs:890-1091 | any transaction on one device: every block written was clear in the loaded main bitmap, or clear in the pool bitmap, or the non-live ring head; all writes distinct; no data goes over metadata and no metadata over data; no block in use changes; all data and trees in place; when it must succeed; and the next load finds the allocator as it was left |
| ReplaceTransaction.StillSplit | src/apfs_replace.rs:890-1091 | steps write outside the allocator's metadata, the commit inside pool and ring, so the two stay apart |
| StreamDetach.DetachStream | src/apfs_replace.rs:622-681 | refused exactly when a key is malformed, the stream is shared, encrypted or unaligned, or an extent has no reference of its own; otherwise the stream's records leave the catalog and, unless a snapshot retains them, its references leave the list and its blocks are returned |
| StreamDetach.DroppedIs | src/apfs_replace.rs:657-676 | with unique references exactly the extents' own references go |
| StreamDetach.ExtentsApart | src/apfs_replace.rs:661-672 | an extent whose reference counts one shares no block with any other extent |
| StreamDetach.DetachMatched | src/apfs_replace.rs:622-681 | catalog and references stay matched; the blocks that leave the catalog are exactly the stream's, no other extent has them, and their references leave with them |
| StreamDetach.DetachAll | src/apfs_replace.rs:849-858 | several streams: succeeds exactly if each can be detached in its turn; with a snapshot nothing is retired, without one exactly the blocks that left the catalog |
| StreamDetach.SelectStreams | src/apfs_replace.rs:785-815 | the streams that go with a file's content; refused exactly when a record cannot be read |
| StreamWrite.WriteData | src/apfs_replace.rs:920-937 | the data in blocks that were free, piece by piece, joined into runs; succeeds whenever enough blocks are free |
| StreamWrite.RunsFollow | src/apfs_replace.rs:924-937 | the runs name the blocks in order, each once |
| StreamWrite.NewReads | src/apfs_replace.rs:945-969 | the new stream reads as the data |
| StreamWrite.ReadersGive | src/apfs_read.rs:2587-2646 | what a stream reads as is what both readers give, in whatever order they get its extents |
| StreamWrite.AddMatched | src/apfs_replace.rs:945-969 | with the new extents and references catalog and references stay matched |
| FileReplace.OthersSpared | src/apfs_replace.rs:817-842 | a stream with one owner is no other inode's |
| FileReplace.Strip | src/apfs_replace.rs:771-858 | refused exactly when the file has no inode, a record cannot be read, a stream has another owner or cannot be detached |
| FileReplace.SoundAgain | src/apfs_replace.rs:849-976 | what a replacement relies on holds again after it |
| FileReplace.OthersStill | src/apfs_replace.rs:849-976 | every other file keeps its inode and reads as before |
| FileReplace.RetiredStill | src/apfs_replace.rs:849-858 | without a snapshot the blocks retired are exactly those the catalog no longer refers to, and no reference covers them; with one, none |
| FileReplace.Rewrite | src/apfs_replace.rs:771-976 | the file reads as the new data, every other file as before, the right blocks are retired, and the next replacement can rely on the result; when it must succeed |
| FileReplace.ReplaceFile | src/apfs_replace.rs:684-1091 | the same after the whole transaction, with catalog and references planted as trees and no block that was in use changed |
| CheckpointRing.Scan | src/apfs_read.rs:883-908 | finds the superblock with the highest transaction, or there is none |
| CheckpointRing.FindMap | src/apfs_update.rs:928-937 | the first checkpoint map among a checkpoint's blocks |
| CheckpointRing.Descriptors.constructor | src/apfs_update.rs:959-998 | a container with one checkpoint starts valid |
| CheckpointRing.Descriptors.Append | src/apfs_update.rs:959-998 | refused exactly with two slots; otherwise the new checkpoint is current and the last floor(ring / 2) checkpoints stay intact |
| CheckpointRing.Descriptors.Mount | src/apfs_read.rs:883-908 | mounts the checkpoint appended last, whose index is the one the verifier expects |
| CheckpointRing.CurrentFound | src/apfs_verify.rs:1369-1378 | the newest superblock is the last appended, and its recorded index is the expected one modulo the ring |
| CheckpointRing.AppendedKept | src/apfs_update.rs:969-996 | appending keeps the descriptors of the last floor(ring / 2) checkpoints |
| CheckpointRing.BackShifts | src/apfs_update.rs:969-996 | two slots further on, what was i checkpoints back is i + 1 back, clear of the slots written |
| CheckpointRing.Updates | src/apfs_update.rs:1027-1186 | any number of mounts and appends: none is refused and each mount finds the last append |
| CheckpointRing.ThreeSlotsLoseOne | src/apfs_update.rs:969-996 | with three slots the new superblock overwrites the previous map |
| SpacemanBuild.VerifyTable | src/apfs_verify.rs:2169-2271 | accepts exactly tables of chunks that tile the device, with true free counts, in the declared numbers |
| SpacemanBuild.ReadCabs | src/apfs_verify.rs:2099-2167 | the chunk-info addresses through address blocks; accepts exactly blocks with the right index and entry count |
| SpacemanBuild.ListedAt | src/apfs_verify.rs:2099-2167 | address j of block c is chunk-info block c * perBlock + j |
| SpacemanBuild.VerifySpaceman | src/apfs_verify.rs:2023-2287 | accepts exactly space managers whose table, totals, offsets, sizes and ring are right, the arrays lying within the object however many blocks it spans, with the chunk-info addresses listed directly or through address blocks |
| SpacemanBuild.BuildChunks | src/apfs_write.rs:1185-1211 | chunk records and bitmaps: full chunks, one partly used, free ones without a bitmap |
| SpacemanBuild.BuildCibs | src/apfs_write.rs:1218-1236 | the chunk-info blocks list the chunks in order |
| SpacemanBuild.FirstRingGood | src/apfs_write.rs:1284-1303 | the initial ring passes the ring check |
| SpacemanBuild.PrefixAllocated | src/apfs_verify.rs:2010-2019 | a block is allocated iff it is among the first `used` |
| SpacemanBuild.Build | src/apfs_write.rs:1164-1316 | fails exactly when chunk-info addresses overflow, the container is below 64 MiB or more bitmaps are needed than reserved; otherwise it lists the addresses directly, the verifier accepts the result and exactly the first `used` blocks are allocated |
| SpacemanBuild.ReserveSuffices | src/apfs_write.rs:1738-1745 | whenever 3 * chunks + 3 blocks fit a chunk, the reserve covers every bitmap needed and all metadata lies in the pool |
| SpacemanBuild.ReserveExact | src/apfs_write.rs:1738-1745 | for any number of blocks in use the reserve covers every bitmap iff the reserved bitmaps have a bit for every block up to the end of the pool |
| SpacemanBuild.ReserveFallsShort | src/apfs_write.rs:1738-1745 | otherwise some container needs one bitmap more than reserved |
| SpacemanBuild.SizedPlanBuilds | src/apfs_write.rs:1738-1745 | a plan sized that way never runs out of reserved bitmaps |
| Huffman.BitReader.Take | src/apfs_read.rs:3063-3074 | takes the next bits, low bit first; fails exactly when too few are left |
| Huffman.BitReader.AlignToByte | src/apfs_read.rs:3076-3078 | moves to the next byte boundary and no further |
| Huffman.Tally | src/apfs_read.rs:3101-3107 | counts the lengths; refuses exactly lengths above 15 |
| Huffman.Spare | src/apfs_read.rs:3111-3117 | the code space left over, negative iff the code is over-full |
| Huffman.SortSymbols | src/apfs_read.rs:3122-3132 | symbols by length, then by number, each once |
| Huffman.Build | src/apfs_read.rs:3095-3134 | accepts exactly lengths up to 15 that form a complete code, or at most one code where an incomplete one is allowed, and builds the canonical table |
| Huffman.Decode | src/apfs_read.rs:3136-3151 | returns a symbol exactly when its canonical code of section 3.2.2 of RFC 1951 comes next, takes exactly that code, and never leaves the table |
| Huffman.SymbolUnique | src/apfs_read.rs:3136-3151 | at most one symbol's code comes next |
| Huffman.CodeUnmatched | src/apfs_read.rs:3136-3151 | no code is cut short by a shorter one |
| Huffman.NextIsKraft | src/apfs_read.rs:3136-3151 | code values used up to a length are the Kraft sum so far |
| Huffman.CompleteNeverUnknown | src/apfs_read.rs:3136-3151 | a complete code never meets an unknown code with 15 bits left |
| Huffman.CompleteCovers | src/apfs_read.rs:3136-3151 | with a complete code and 15 bits left some symbol's code comes next |
| Huffman.IncompleteHasUnknown | src/apfs_read.rs:3136-3151 | fifteen one bits begin with no symbol's code iff the code is incomplete |
| Inflate.CopyRepeats | src/apfs_read.rs:3270-3274 | every copied byte equals the byte `distance` before it, overlap included |
| Inflate.CopyBack | src/apfs_read.rs:3270-3274 | the copy loop yields exactly that |
| Inflate.ItemUnique | src/apfs_read.rs:3227-3276 | the bits at a position say at most one item |
| Inflate.ReadingAgrees | src/apfs_read.rs:3227-3276 | what has been decoded begins any reading of the block |
| Inflate.ReadCopy | src/apfs_read.rs:3246-3274 | reads the rest of a back-reference; fails exactly when no length and distance follow the symbol |
| Inflate.InflateCodedBlock | src/apfs_read.rs:3227-3276 | succeeds exactly when the bits read as items and an end within the limit; the output is what they stand for |
| Inflate.InflateStoredBlock | src/apfs_read.rs:3202-3225 | succeeds exactly on a stored block whose length fields agree and fit |
| Inflate.FixedComplete | src/apfs_read.rs:3278-3291 | both fixed codes are complete |
| Inflate.ReadRun | src/apfs_read.rs:3307-3336 | one instruction of the code lengths, with the repeat rules of section 3.2.7 of RFC 1951 |
| Inflate.ReadLengths | src/apfs_read.rs:3304-3337 | fails exactly when no instructions fill the lengths |
| Inflate.ReadCodeLengths | src/apfs_read.rs:3298-3302 | the code-length code in its own order |
| Inflate.DynamicCodes | src/apfs_read.rs:3293-3342 | fails exactly when there is no well-formed header |
| Inflate.SameBlock | src/apfs_read.rs:3178-3200 | the bits at a position are at most one block |
| Inflate.InflateBody | src/apfs_read.rs:3183-3194 | a block of any kind, exactly when well-formed and within the limit |
| Inflate.InflateStream | src/apfs_read.rs:3178-3200 | terminates on every input and succeeds exactly when the bytes begin with well-formed blocks within the limit; output and bytes taken are theirs |
| Inflate.OutputWithin | src/apfs_read.rs:3178-3276 | no reading produces more than `limit` bytes |
| Inflate.StoreRoundTrip | src/apfs_read.rs:3202-3225 | bytes stored in one block are inflated to themselves |
| ExtentReader.ReadRun | src/apfs_read.rs:2648-2674 | reads whole blocks; fails exactly when one is outside the container |
| ExtentReader.StreamRun | src/apfs_read.rs:2620-2636 | one buffer's worth of a span |
| ExtentReader.StreamSpan | src/apfs_read.rs:2619-2637 | the bytes of a span; fails exactly when one lies outside |
| ExtentReader.StreamSpans | src/apfs_read.rs:2587-2646 | exactly end - start bytes, each of the first covering extent or zero; `sparse` counts the uncovered ones; fails exactly when a needed block is outside |
| ExtentReader.WindowAt | src/apfs_read.rs:2587-2646 | the window as a function of position |
| ExtentReader.WindowsJoin | src/apfs_read.rs:2587-2646 | adjacent windows and their counts join to the larger window |
| ExtentReader.CopySpan | src/apfs_read.rs:1292-1301 | copies exactly the span's bytes into the buffer; fails exactly when one of its blocks is outside |
| ExtentReader.ReadDataStream | src/apfs_read.rs:1240-1304 | every byte is the last covering extent's or zero; the exact refusals |
| ExtentReader.WindowIsSlice | src/apfs_read.rs:1286-1303 | on extents without overlap a window is the slice of the whole file |
| ExtentReader.ReadersAgree | src/apfs_read.rs:2587-2646 | the two readers agree on a byte for every disk iff its covering extents name one location |
| ExtentReader.OverlapDiffers | src/apfs_read.rs:1286-1303 | two extents over one stretch in different places make them differ |
| InodeFields.ReadOthers | src/apfs_replace.rs:559-583 | the fields that are no data stream; fails exactly on a malformed table |
| InodeFields.FieldsUnique | src/apfs_read.rs:1509-1538 | an inode record carries one list of fields |
| InodeFields.AssembleReads | src/apfs_replace.rs:598-618 | what is assembled parses back, for any number of fields of any lengths under 8-byte padding |
| InodeFields.HeadKept | src/apfs_replace.rs:589-597 | all of the head but the rewritten words is kept |
| InodeFields.NewWords | src/apfs_replace.rs:589-597 | the four rewritten words read as the private id, the flags with their bits cleared, the new internal flags and zero |
| InodeFields.NewFlagBits | src/apfs_replace.rs:589-597 | the clone bit is clear, the fork bits follow the request and every other flag is kept |
| InodeFields.ReplaceInodeStream | src/apfs_replace.rs:549-620 | the new record carries every other field, unchanged and in order, then one data stream; refused exactly when short, malformed or too large for its counts |
| InodeFields.InodeDataStream | src/apfs_read.rs:1509-1538 | on any record: the first data stream, none, or a refusal, exactly as the table read up to the field that decides it says |
| InodeFields.ReplacedStreamFound | src/apfs_read.rs:1509-1538 | after a replacement the reader finds the new size and no crypto id |
| FreeQueue.MergeSorted | src/apfs_replace.rs:501-521 | lists exactly the same pairs without mergeable neighbours; refuses exactly overlaps and ranges that do not fit in 64 bits |
| FreeQueue.Coalesce | src/apfs_replace.rs:488-525 | per transaction exactly the blocks of old queue and additions, canonical, with the count of distinct pairs and the oldest transaction; refused exactly when a pair is listed twice, the blocks number 2^64 or more, or a range that is not the greatest ends there |
| FreeQueue.OneCanonical | src/apfs_replace.rs:501-521 | there is only one canonical list of a set of pairs |
| FreeQueue.CanonicalCounts | src/apfs_replace.rs:522-524 | its blocks number as many as its pairs |
| FreeQueue.SortKeeps | src/apfs_replace.rs:500 | sorting keeps the pairs |
| FreeQueue.OverlapPush | src/apfs_replace.rs:506-519 | what one run more does to overlap-freedom |
| FreeQueue.BelowEnd | src/apfs_replace.rs:506-519 | all pairs of the last transaction lie below the end of the last run, so comparing with it suffices |
| FreeQueue.RecordRoundTrip | src/apfs_replace.rs:526-533 | a run stored as a record is read back as the same run |
| QueueTree.OneQueue | src/apfs_replace.rs:483-494 | a block holds one queue at most |
| QueueTree.ReadQueue | src/apfs_replace.rs:483-494 | the runs of a lone root with 16-byte keys and 8-byte values; refused exactly when the block holds no queue |
| QueueTree.HoldsCarried | src/apfs_replace.rs:543-545 | what a node holds does not depend on its object header |
| QueueTree.WriteQueue | src/apfs_replace.rs:526-546 | a leaf under the old object header, dated and sealed, that holds exactly the runs and announces the same layout; refused exactly when one node does not hold them |
| QueueTree.UpdateQueue | src/apfs_replace.rs:476-547 | the whole update of the queue block: succeeds exactly when the block holds a queue, no pair is listed twice, the ranges fit and the canonical list fits one node; the new block holds that list, so the next update reads it back |
| SortKey.BeOrder | src/apfs_write.rs:575-594 | big-endian bytes in front of a string: the number decides, then the string |
| SortKey.OrderEmbedding | src/apfs_write.rs:575-594 | on well-formed keys the sort key orders as (object id, kind, tail) of the verifier does |
| SortKey.SortedPasses | src/apfs_verify.rs:2653-2661 | a sorted list passes the strict check iff neighbours have different sort keys |
| SortKey.DistinctSortKeys | src/apfs_verify.rs:225-240 | different well-formed keys have different sort keys |
| SortKey.DistinctKeysPass | src/apfs_verify.rs:2653-2661 | sorting distinct keys always passes the check |
| SortKey.PlainNamesNeedOwnKey | src/apfs_replace.rs:30-40 | two plain names on which the hashed key and the verifier disagree |
| SortKey.PlainNamesOrder | src/apfs_write.rs:575-594 | on plain names of one directory the hashed key orders as the verifier does iff the first two bytes do not pull in different directions |
| SortKey.PlainListPasses | src/apfs_update.rs:739 | a list of distinct plain names sorted by the hashed key passes the verifier iff that holds for all neighbours |
| DirectoryKey.HashedKey | src/apfs_write.rs:476-485 | under the hashed layout a written key reads as the name and ten bits of its length |
| DirectoryKey.PlainKeyReads | src/apfs_verify.rs:190-202 | under the plain layout it reads as sixteen bits of length and hash, and a name that starts two bytes early, in the hash |
| DirectoryKey.ShortLength | src/apfs_write.rs:476-485 | for names up to 1022 bytes the length is undisturbed iff six bits of the hash are zero |
| CatalogRecords.LegibleExact | src/apfs_update.rs:210-244 | a written entry is found under its name iff the layout can read it: at most 1022 bytes if hashed, the stated condition if plain |
| CatalogRecords.PlainLegible | src/apfs_update.rs:210-244 | that condition for names up to 1022 bytes |
| CatalogRecords.NeverPlain | src/apfs_update.rs:210-244 | whatever the hash, a plain reader finds no written name whose first and third bytes differ |
| Catalog.PlainFileLost | src/apfs_update.rs:670-741 | on a plain volume with only a root directory the call succeeds for every such name, and the name does not resolve afterwards |
| Catalog.LongNameLost | src/apfs_write.rs:476-485 | a name of 1023 bytes is found under no name |
| Catalog.HashedReads | src/apfs_write.rs:476-485 | whatever its length, a name is read back as its first ((length + 1) mod 1024) - 1 bytes, or as no name |
| Catalog.UniqueIff | src/apfs_update.rs:716-737 | after an entry is added no directory lists a name twice iff the entry reads as no name or as one its directory does not have |
| Catalog.NameTwice | src/apfs_update.rs:670-741 | for every name up to 1022 bytes and every 1024 bytes appended: both files are created without a refusal and the root then lists the name twice |
| CatalogRecords.FindDirChild | src/apfs_update.rs:210-244 | the first entry of that name up to case: its child, or a refusal if its value is short; not found if there is none |
| CatalogRecords.ResolvePath | src/apfs_update.rs:246-256 | follows the entries name by name with those outcomes; with all values whole it fails exactly where an entry is missing |
| CatalogRecords.LookupIs | src/apfs_update.rs:210-244 | where no value is short a lookup is the first entry of that name, or none |
| CatalogRecords.FollowIs | src/apfs_update.rs:246-256 | so following a path is resolving it |
| CatalogWalk.SoleExtent | src/apfs_update.rs:303-319 | the one extent record; refused exactly for none or several |
| CatalogWalk.LocateFile | src/apfs_update.rs:267-343 | inode, sizes and address of a path's file; succeeds exactly when the path can be followed and the object it leads to has an inode and one extent |
| CatalogRecords.PathsKept | src/apfs_update.rs:670-741 | if every entry found is still found, every path resolves as before |
| CatalogRecords.GrownWellFormed | src/apfs_update.rs:716-737 | adding a child keeps names unique, child counts right and ids fresh |
| CatalogRecords.GrownKeeps | src/apfs_update.rs:716-737 | the new child is found iff its entry spells its name, and everything found before still is |
| CatalogRecords.RespelledWellFormed | src/apfs_update.rs:695-712 | respelling an entry keeps the catalog well-formed and every lookup the same |
| CatalogRecords.Mislaid | src/apfs_update.rs:695-712 | an entry replaced by one that does not spell the name: the name leads nowhere |
| CatalogRecords.NewFileLocated | src/apfs_update.rs:730-733 | a new file is located with nothing in it |
| Catalog.Volume.Enter | src/apfs_update.rs:683-715 | an existing child is entered iff its inode has the expected type and the name is ASCII; its entry is replaced by the one written for the name and nothing else changes; if the layout cannot read the new entry the name is lost |
| Catalog.Volume.Add | src/apfs_update.rs:716-737 | a missing child is added iff ids and the child count have room and the name is ASCII; it gets a fresh id, exactly its records are added, and it is found iff the layout can read its entry |
| Catalog.Volume.EnsureFileRecords | src/apfs_update.rs:670-741 | for either key layout, if it can read the names: succeeds iff the path is acceptable; then the path resolves, a new file is located empty with a fresh id, exactly the missing names are added, every earlier path leads to the same object, the same objects are located in the same places, and the catalog stays well-formed. Whatever the names, on a path that passes no directory twice: succeeds iff the path is acceptable, and the path resolves afterwards iff the layout can read every name |
| CatalogWalk.EnterPasses | src/apfs_update.rs:683-715 | an existing name is acceptable iff it is ASCII and of the right kind |
| CatalogWalk.FirstPasses | src/apfs_update.rs:716-737 | the first missing name iff it is ASCII, an id is left and its directory has room |
| CatalogWalk.LaterPasses | src/apfs_update.rs:716-737 | every later one iff it is ASCII and one more id is left |
| CatalogWalk.PlacedResolve | src/apfs_update.rs:670-741 | of names placed one in the other, the first k resolve iff all of them can be read |
| CatalogWalk.TroddenEnds | src/apfs_update.rs:670-741 | a walk that reaches its end shows the path acceptable, and after the sort the path resolves iff every name can be read |
| CatalogWalk.LaidAdds | src/apfs_update.rs:716-737 | adding one more missing name extends exactly what was laid so far |
| CatalogWalk.LaidSorted | src/apfs_update.rs:739 | and the final sort changes nothing of it |
| PathSet.OnePath | src/apfs_update.rs:246-256 | in a catalog where no directory has two names, two paths to one directory agree up to case |
| PathSet.TreeKept | src/apfs_update.rs:670-741 | creating a path keeps the catalog such a tree |
| PathSet.Newly | src/apfs_update.rs:670-741 | after a path is created any path resolves to what it did, or follows the new one up to case and leads to the new object there |
| PathSet.OpenKept | src/apfs_update.rs:670-741 | creating one path leaves every other open that is not in its way |
| PathSet.FirstOpen | src/apfs_update.rs:791-793 | the first of a list of open paths is acceptable, and a file there can be located |
| PathSet.RestOpen | src/apfs_update.rs:791-793 | after it is created the others are open |

## Left out

- Publication of a checkpoint by a replacement (`append_with`, `RepairSession`): the transaction is modelled up to it.
- `collect_omap` and `verify_reap_list`: a second tree walk and a list walk of the kind proved for `read_tree` and `verify_ip_ring`.
- `src/apfs_mutate.rs`, the test fixtures, the terminal program and the download cache.
- Adler-32 and the zlib wrapper, LZVN, SHA-256 and CRC-32C are not part of this model; the hash of a name is a parameter.
- The bytes of superblocks, checkpoint maps, chunk-info blocks and the space manager header: these objects are records with the fields the algorithms use.
- Fusion devices, sealed and encrypted volumes, GPT, UDIF and qcow2 wrapping.
- Error message text, timestamps and random identifiers; errors are a small enumeration.
- Unicode names: names are bytes, compared with ASCII case folded.
- Object ids of 2^60 and above, which would run into the kind bits of a key, are not excluded or modelled in `Catalog`.
- SnapshotUpdate.Volume.Update: the catalog and extent-reference records are parameters here; `VolumeUpdate.Files.Update` derives them from the files.
- SnapshotUpdate.Run: likewise; `VolumeRun.Run` is the run with the records derived from the files.
- VolumeRun.Run: the condition under which a run must succeed is sufficient, not necessary: it asks for one clear run of all the blocks the run can take. Names the key layout cannot read are covered as in `VolumeUpdate.Files.UpdateAll`.
- VolumeUpdate.Files.Update: the bytes of a catalog record are a parameter, read back on records that fit their fields; names are covered as in `VolumeUpdate.Files.UpdateAll`. Files the catalog holds in several extents, which `locate_file` refuses, are not among the volume's files.
- VolumeUpdate.Files.Reach: a path that passes a directory twice and holds a name the key layout cannot read is not covered.
- VolumeUpdate.Files.UpdateOne: likewise.
- VolumeUpdate.Files.UpdateAll: a name the key layout cannot read is covered on catalogs in which every directory has one name.
- ReplaceTransaction.Transact: the steps are a list given by the caller; `FileReplace.ReplaceFile` derives catalog and extent references from the file replaced.
- FileReplace.ReplaceFile: object-map records and header blocks of the transaction are given by the caller, the retired tree nodes and the volume's counters are not part of it, and records are decoded ones; when it must succeed is said for the records and the data by `FileReplace.Rewrite` and for the transaction by `ReplaceTransaction.Transact`.
- ContainerUpdate.UpdateContainer: the verification of the whole image before and after an update, and the check that the Preboot selection names the System volume's group, are not part of it; superblocks and headers are blocks given by the caller.
- Catalog.Volume.EnsureFileRecords: on paths that pass a directory twice and hold a name the key layout cannot read, only the single steps are described. The final sort is by any integer rank of records. All directory records hold their object id at the start; the refusal of a shorter value is in `CatalogRecords.FindDirChild`.
