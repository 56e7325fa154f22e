# A verified model of exfat-slim

This project models exfat-slim, an exFAT file system library for embedded devices, in its blocking
form, and proves what the library is for: files of one volume are byte sequences that share nothing,
whatever is read, written, opened, closed, truncated and removed, and the device ends up holding them.

The model follows the code bottom up.

- `Bytes`, `Disk`: bytes and sectors, the layout of a volume, and what its raw sectors mean (which
  clusters are allocated, the FAT, the bytes of each cluster).
- `SlotCache`, `Spots`, `Volume`, `Touched`, `FlushOrder`: the write-back clock cache; the places on the
  disk (single bytes, and single bits of the bitmap) where the device is behind, and which file each belongs
  to; three caches over one device, seen as one flat disk; the bounded list of touched sectors that a flush
  goes through, and the order in which it writes.
- `FreeSearch`, `Allocator`, `Chains`, `FatAccess`, `ChainStore`: the search for free clusters, the
  allocation bitmap, the FAT, and chains that are grown, recorded, found again and freed.
- `Cursor`, `FileData`, `Contents`, `File`: an open file, its cursor, and its contents as read through
  its chain.
- `DirEntry`, `Timestamp`, `Names`, `EntrySet`, `DirPlace`, `DirReader`, `DirWriter`, `Directory`,
  `DirUpdate`, `Lookup`: directory entries and their codecs, entry sets with checksum and name hash,
  and reading, creating, rewriting, removing and looking up sets on the disk.
- `FsState`, `DirState`, `Conservation`, `FileOps`, `FileSystem`: all files of a volume together, and
  the operations of the file system on them.
- `RunModel`, `RunSteps`, `Runs`, `NewVolume`: the simple model, and whole runs of the file system
  against it, from an empty volume on.
- `Handles`: the handle table of the actor interface.

Objects of the program whose methods update fields are classes: `Device`, `SlotCache`, `Volume`,
`FileDirty`, `Allocator`, `File`, `DirectoryEntryChain`, `DirSetWriter`, `Utf16Chunks`, `FileSystem`,
`Handles`. Their methods are proved against functions and predicates on values.

The main results are `Runs.Run` (every run returns what the simple model returns, and ends with its
files), `Runs.AtEveryState` (at every state of a run each allocated cluster has exactly one owner and
none is lost), `Runs.OnDevice` and `FileSystem.FileSystem.Flush` (what has been flushed is on the device
alone, whatever other open files have not saved), `FileSystem.FileSystem.Reopen` (what is recorded brings a
file back), `File.File.Write`, `File.File.Read` and `File.File.UpdateChain` (the core of a file), the
cache (`SlotCache.SlotCache.ReadInner`), the allocator's search (`FreeSearch.ScanIsAnswer`), and the
directory (`Directory.CreateSet`, `DirUpdate.ChangeSet`, `DirUpdate.MarkSetUnused`, `Lookup.FindFile`).
What these results are stated in is fixed by laws of its own: every case of the model's operations
(`RunModel.OpenGives`, `RunModel.NextGives`), every field, FAT entry, bitmap bit and data byte at its place
on the disk in plain numbers (`DirEntry.FileBytes`, `FatAccess.SetEntry`, `Disk.BitPlace`,
`FileData.VisibleBytes`), when two names are one (`Names.SameNameUpcased`), and what checksum and hash tell
apart (`EntrySet.ChecksumTells`, `Names.HashTells`).

## Model

| member | source | states |
|---|---|---|
| Runs.Run | src/file_system.rs:186-242 | for any sequence of open, write, read, seek, flush, close and remove that the caller rules of the simple model allow, every operation returns what the model returns and the file system ends in the model's state; a run stops early exactly at the first write for which the model's files would need more clusters than there are |
| Runs.Do | src/file_system.rs:186-308 | one operation, on the real objects, is one step of the model: same result, same files, same directory entries in use, same room for clusters |
| Runs.DoOpen | src/file_system.rs:186-242 | open finds, creates, refuses, empties and positions exactly as the options say, and touches no other file |
| Runs.DoRemove | src/file_system.rs:301-308 | remove_file takes exactly the named file out of the model and frees its directory entries; a bad or unknown name changes nothing |
| Runs.AtEveryState | src/allocation.rs:228-313 | in every state a run reaches the files are sound and settled, no two share a cluster, and free clusters plus the clusters the model's files need equal the room at the start |
| Runs.OnDevice | src/file.rs:352-437 | in every state of a run the device alone, without any cache, lists exactly the model's files, and for each file that is closed, or unchanged since its last flush, the entry set on the device leads to clusters holding the model's bytes, whatever other files are open and unsaved |
| Runs.ClosedClean | src/file.rs:427-437 | a closed file has nothing left to save |
| Runs.AllOnDevice | src/file.rs:352-437 | with all files closed the device is the logical disk, bit for bit |
| RunModel.OpenGives | src/file_system.rs:186-242 | every case of open in the model, written out: `AlreadyExists` without change for `create_new` on an existing file, the same bytes and lengths or none of them with `truncate`, `FileNotFound`, `DirectoryFull` or an empty file in the first free entries, and a handle at 0, or at the valid length for append, with exactly the rights asked for |
| RunModel.NextGives | src/file.rs:443-504 | every case of write, read, seek, flush and close in the model, byte by byte |
| RunModel.HandleGives | src/file.rs:443-504 | and none of these changes another file or the use of a directory entry |
| RunModel.RemoveGives | src/file_system.rs:301-308 | every case of remove_file in the model |
| RunModel.ReadBack | src/file.rs:443-504 | writing, seeking back and reading returns the bytes written |
| NewVolume.Mount | src/file_system.rs:162-183 | a volume that lists no file and has only system clusters allocated is a state runs can start from |
| NewVolume.Start | src/file_system.rs:162-183 | such a volume exists: a concrete 64-sector disk is mounted and is ready for runs |
| Conservation.ClustersConserved | src/allocation.rs:228-313 | wherever the books are right, free clusters and the clusters of all files add up to what the system leaves over |
| FsState.NoneShared | src/allocation.rs:228-313 | ownership leaves no cluster in two chains |
| FsState.StepKeeps | src/file.rs:607-717 | a step of one file that keeps the books and leaves the clusters of the other files alone keeps the whole state sound and every other file as it was |
| FsState.GrowKeeps | src/file.rs:607-717 | growing and writing one file, whatever its outcome, keeps ownership exact and leaves every other file and all system clusters as they were |
| FsState.ClosedComesBack | src/file_system.rs:424-455 | what closing records of a file brings back its clusters, lengths and flag, in the shape the record calls for |
| FileSystem.FileSystem.Write | src/file.rs:739-796 | a write on one of many open files: its result, the new contents of that file, every other file unchanged, the directory still in agreement |
| FileSystem.FileSystem.Read | src/file.rs:443-504 | a read changes no file, returns the contents from the cursor on, and moves that cursor only |
| FileSystem.FileSystem.Seek | src/file.rs:810-860 | a seek changes no file; the position stays usable exactly when it lies in one of the file's clusters |
| FileSystem.FileSystem.Flush | src/file.rs:352-420 | the entry set records the file as it is, everything the file wrote since its last flush is on the device, and the device alone leads to its contents also while other files are open and unsaved; contents and all other files unchanged; byte by byte what the first two entries of the set then hold |
| FileSystem.FileSystem.CleanOnDevice | src/file.rs:352-420 | between operations the directory on the device is up to date, and so is every file with nothing left to save, its FAT links and bytes included |
| FileSystem.FileSystem.Close | src/file.rs:427-437 | flushes and drops the handle; the record stands for the same clusters and contents, and the device alone leads to them |
| FileSystem.FileSystem.Reopen | src/file_system.rs:186-242 | closing and opening again brings back the same clusters, lengths, flag and contents for every shape; a FAT-linked chain held as Contiguous comes back as Fat |
| FileSystem.FileSystem.Find | src/file_system.rs:468-478 | a name is found exactly when the directory on the disk holds a set whose attributes make it a file and whose stored name is the same up to case, unit by unit by the entries of the up-case table; what is returned is what that set says |
| FileSystem.FileSystem.Create | src/file_system.rs:553-579 | creation succeeds exactly for a legal name with enough free entries in a row; it adds one empty file and leaves the rest alone |
| FileSystem.FileSystem.OpenFound | src/file_system.rs:213-241 | a new handle on the recorded chain; the cursor is well placed iff the file has no clusters, is not opened for append, or has its valid length in its last cluster |
| FileSystem.FileSystem.TruncateFound | src/file_system.rs:483-550 | truncation to nothing frees exactly the file's clusters and records none |
| FileSystem.FileSystem.RemoveFound | src/file_system.rs:870-887 | removal frees exactly the file's clusters and its entries, and no other file changes |
| FileSystem.FileSystem.AllSaved | src/file.rs:352-420 | when no file is open the device equals the logical disk |
| DirState.LookedUp | src/directory.rs:106-154 | a lookup by name finds a file exactly when the directory records one, and then the recorded details |
| FileOps.FlushHandle | src/file.rs:352-420 | after a flush the directory on the disk records the handle's lengths, first cluster and flag, and no byte or bitmap bit the file wrote is unsaved, also in sectors it shares with other open files; an outdated set gets the time of modification and access at their byte places, keeps its time of creation, and holds first cluster, lengths and flags at theirs |
| FsState.CleanStored | src/file.rs:352-420 | as unsaved places belong to files that are open and have not been flushed, the device alone holds the chain and the bytes of every other file |
| Spots.SpotsApart | src/fat.rs:54-71 | no byte or bit of the disk belongs to two clusters, although clusters share FAT and bitmap sectors |
| FileOps.TruncateStored | src/file_system.rs:483-550 | the entry set is emptied before the chain is freed, and afterwards both agree |
| FileOps.RemoveStored | src/file_system.rs:870-887 | the chain is freed and exactly the file's entries go out of use |
| File.File.Write | src/file.rs:739-796 | the outcome as a function of mode, free clusters and tail; on success the buffer is spliced in at the cursor, the chain has grown by exactly the shortfall, and a reader sees the old contents with the buffer written over them iff no stale byte lies in the gap; when the disk is full every free cluster has been taken, and the chain fits the data length iff there was none; whatever the outcome nothing outside the file changes |
| File.File.Read | src/file.rs:443-504 | exactly the bytes of the contents from the cursor to the lesser of buffer end and file end, zeros from the valid length on, nothing at the end |
| File.File.Seek | src/file.rs:810-860 | refused beyond the valid length, fails at the end of a FAT chain, and otherwise leaves the cursor well placed iff the position is in a cluster or the file is empty |
| File.File.UpdateChain | src/file.rs:607-692 | appends exactly the run to the clusters the chain stands for, for every shape and flag; the FAT links them whenever NoFatChain is clear, and no entry of another chain changes |
| File.File.ConvertToFatChain | src/file.rs:958-994 | links all clusters held so far but the last, clears NoFatChain, and marks the entry set |
| File.File.AllocateClustersFor | src/file.rs:695-717 | succeeds iff enough clusters are free, taking exactly as many as the bytes need; otherwise the chain has swallowed every free cluster |
| File.File.WritePartialSector | src/file.rs:997-1027 | how many bytes are taken, where they go, how the cursor and the remaining count move, and when it goes wrong |
| File.File.WriteBlocks | src/file.rs:780-790 | all whole sectors of the buffer, across clusters, end up in the chain at the cursor |
| File.File.NextCursorId | src/file.rs:1050-1085 | the next cluster of the chain for every shape, or the end of the chain |
| File.File.NextClusterIfRequired | src/file.rs:720-733 | keeps the cursor invariant and fails exactly at the end of the chain |
| Cursor.Moved | src/file.rs:1044-1048 | moving by at most what remains keeps the cursor invariant, so the subtraction cannot underflow, and uses the cluster up exactly at the next boundary |
| Cursor.AppendPlaced | src/file_system.rs:218-231 | where opening for append puts the cursor is right iff the valid length lies in the last cluster |
| Cursor.AppendToFullCluster | src/file_system.rs:218-231 | a file of one full cluster is a counterexample |
| FileData.GrowLinked | src/file.rs:607-692 | joining a run to a chain that is linked up to its last entry links the longer chain and touches no entry outside it |
| FileData.Reached | src/file.rs:756-768 | with the shortfall made up the chain is exactly as long as the new data length calls for |
| FileData.SeekPlaced | src/file.rs:810-860 | the cursor after a seek is right iff the chain has a cluster there |
| FileData.SeekToFullEnd | src/file.rs:810-860 | seeking to the end of a file of one full cluster is a counterexample |
| FileData.FullDiskKeeps | src/file.rs:695-717 | 1024 bytes written to an empty file with one free cluster are an example of a write that fails and leaves a cluster behind |
| FileData.TailUnderflows | src/file.rs:791-792 | 513 bytes written to an empty file on single-sector clusters are a counterexample |
| Contents.SeenAfterWrite | src/file.rs:923-929 | after a write the visible bytes are the old ones with the buffer written over them iff the bytes between valid length and cursor are zero |
| Contents.VisibleAfterWrite | src/file.rs:923-929 | the same for a file's contents through its chain, also when the chain has grown |
| Contents.StaleByteShows | src/file.rs:923-929 | a one-byte file none of which is valid is a counterexample |
| ChainStore.GetStoredChain | src/file_system.rs:424-455 | recovers the clusters the record was made from |
| ChainStore.ClusterIdAt | src/file_system.rs:813-844 | following the FAT to the end of the data reaches the last cluster of the chain |
| ChainStore.FreeChain | src/allocation.rs:264-313 | exactly the clusters of the chain become free, and no FAT entry outside it changes |
| ChainStore.FreeFat | src/allocation.rs:281-309 | on any FAT, cyclic ones included, the clusters a walk of at most `count` steps meets are freed and unlinked, and no others; it stops early iff the walk meets a cluster without a bit in the bitmap |
| ChainStore.WalkOn | src/allocation.rs:281-309 | one step of that walk: it goes on, or has met all it ever will, also where the chain comes back to a cluster already unlinked |
| Chains.WalkYields | src/fat.rs:88-110 | walking the FAT from the first cluster of a linked chain yields exactly its clusters |
| FatAccess.SetEntry | src/fat.rs:54-71 | the value is stored in the four bytes of the entry, least significant first, in byte `4 * (c % (size / 4))` of FAT sector `c / (size / 4)`; no other entry, bit or byte changes, and the sector is on the touched list |
| FatAccess.NextCluster | src/fat.rs:88-110 | the next cluster if the number in these four bytes is from 2 to 0xFFFFFFF6, otherwise the end of the chain |
| FatAccess.FatRead | src/fat.rs:54-110 | what the model calls the FAT is the numbers in these bytes |
| Disk.BitPlace | src/allocation.rs:315-331 | a cluster counts as allocated when its bit is set, bits of a byte counted from the least significant, that of cluster 2 the first of the bitmap |
| Disk.BytePlace | src/file_system.rs:79-93 | where byte `o` of a cluster lies on the disk |
| FileData.VisibleBytes | src/file.rs:443-504 | each byte of a file's contents is the byte of the disk at its place in its cluster, or zero from the valid length on |
| DirPlace.EntryPlace | src/directory_entry.rs:624-678 | each byte of a directory entry is the byte of the disk at its place in sector and cluster |
| FatAccess.AppendRun | src/file.rs:621-648 | joins a run to the end of a chain and ends it, and changes no other FAT entry |
| FreeSearch.ScanIsAnswer | src/allocation.rs:187-213 | FirstRun finds the least free cluster and goes as far as it may, LongestRun the leftmost longest stretch, and nothing is found only when nothing is free |
| FreeSearch.SkipFull | src/allocation.rs:403-413 | skipping a stretch of allocated clusters agrees with looking at each |
| FreeSearch.FindFails | src/allocation.rs:462-484 | with wrap-around the search fails iff no cluster of the heap is free |
| FreeSearch.FindAnswers | src/allocation.rs:462-484 | the answer is the one for the clusters from the start of the search if any is free there, and for the whole heap otherwise |
| FreeSearch.LongestMet | src/allocation.rs:462-484 | where a run of the length asked for is free, LongestRun returns one iff one lies behind the start of the search or nothing there is free |
| FreeSearch.LongestMissed | src/allocation.rs:462-484 | LongestRun can return one cluster where a run of the length asked for is free |
| Allocator.SetBitRange | src/allocation.rs:315-331 | sets or clears exactly the bits of the range |
| Allocator.ScanChunk | src/allocation.rs:402-445 | scanning 32 clusters at a time agrees with scanning bit by bit |
| Allocator.Allocator.FindFreeFrom | src/allocation.rs:372-459 | the sector-wise scan with its skip and its cut-off gives what the bit-by-bit search gives |
| Allocator.Allocator.FindFree | src/allocation.rs:462-484 | search with wrap-around; the next search starts behind what was found |
| Allocator.NextChunk | src/allocation.rs:83-99 | the part of a run that lies in one bitmap sector: not empty, and as long as run and sector allow |
| Allocator.Allocator.MarkAllocated | src/allocation.rs:334-369 | marks exactly the clusters of the run across sector boundaries, or refuses a run that does not fit and changes nothing |
| Allocator.Allocator.Allocate | src/allocation.rs:228-261 | what is allocated was free, is no longer than asked for, and is all that changes; it fails iff nothing is free |
| Allocator.MarkInverse | src/allocation.rs:334-369 | freeing what was just allocated restores the bitmap, and allocating raises the count by the run's length |
| SlotCache.SlotCache.ReadInner | src/slot_cache.rs:138-157 | the slot returned holds the flat disk's block, eviction changes no logical content, and the invariant is kept |
| SlotCache.SlotCache.CacheHit | src/slot_cache.rs:180-196 | finds the slot of a cached sector and leaves the hand there; on a miss nothing changes and the hand is where it was |
| SlotCache.SlotCache.ChooseVictim | src/slot_cache.rs:199-226 | within N + 1 steps a free or clean slot with all valid slots before it; no block is lost |
| SlotCache.SlotCache.Write | src/slot_cache.rs:160-177 | the device and any cached copy get the block, and the logical disk changes there only |
| SlotCache.SlotCache.Flush | src/slot_cache.rs:98-104 | the device agrees with the logical disk on the whole region, and exactly the dirty sectors are written, in slot order |
| SlotCache.SlotCache.FlushSector | src/slot_cache.rs:107-116 | the device agrees at that sector, sector 0 included, and exactly that sector is written, if it was dirty |
| SlotCache.WriteBackShows | src/slot_cache.rs:229-235 | writing a dirty block back and clearing its mark keeps the cache a view of the logical disk |
| SlotCache.RefillShows | src/slot_cache.rs:138-157 | filling a clean slot from the device keeps the view |
| SlotCache.StoreShows | src/slot_cache.rs:38-41 | storing into a slot and marking it dirty is a write of the logical disk |
| SlotCache.WriteThroughShows | src/slot_cache.rs:160-177 | writing the device past the cache and replacing the copy is a write of the logical disk |
| Volume.Volume.OthersKeep | src/file_system.rs:95-108 | three caches with disjoint regions on one device do not disturb each other |
| Volume.Volume.Patch | src/slot_cache.rs:119-136 | storing into part of a cached sector changes those bytes of the logical disk and nothing else |
| Volume.Volume.WriteThrough | src/slot_cache.rs:160-177 | a whole block goes to the device at once and is never unsaved |
| Volume.Volume.FlushAll | src/file_system.rs:760-765 | afterwards nothing is unsaved; exactly the dirty sectors are written, those of the FAT first, then the bitmap, then data |
| Touched.FileDirty.Insert | src/file.rs:209-220 | a sector not on the list goes to its end, or makes the list overflow when it is full |
| Touched.FileDirty.FlushListed | src/file.rs:235-252 | the device is written with sectors of the list only, each at most once, in Data, Bitmap, FAT, Dir order, and afterwards agrees on all of them |
| Touched.FileDirty.Flush | src/file.rs:223-259 | everything inserted since the last flush is on the device, also after overflow or eviction; without overflow the listed sectors are written in that order, with overflow exactly the dirty sectors of all caches, and in that order iff `KeepsOrder` holds before the call |
| Touched.InTurn | src/file.rs:235-252 | in that order data comes before the bitmap, the bitmap before the FAT, and the FAT before directory entries |
| Touched.OverflowOrder | src/file.rs:223-259 | writing all dirty sectors cache by cache keeps the order Data, Bitmap, FAT, Dir iff no FAT sector is dirty together with a bitmap or plain data sector, no bitmap sector together with a plain data sector, and no directory sector comes before a plain data sector |
| FlushOrder.SevenTouched | src/file.rs:223-259 | touching two FAT sectors and five data sectors is a counterexample |
| Timestamp.RoundTrip | src/timestamp.rs:19-81 | a timestamp survives encoding and decoding iff it is valid, odd seconds and negative offsets included |
| Timestamp.Rewritten | src/timestamp.rs:19-81 | a stored timestamp is written back unchanged iff its 10 ms field is below 200 and its offset is zero or marked valid |
| Timestamp.PackPlaces | src/timestamp.rs:19-81 | the number that a valid timestamp is packed into, field by field |
| Timestamp.FieldPlaces | src/timestamp.rs:19-81 | what is read from any packed number, field by field |
| Timestamp.SecondPlaces | src/timestamp.rs:19-81 | seconds are stored in twos, and the odd one with the hundredths |
| Timestamp.OffsetPlaces | src/timestamp.rs:19-81 | the offset is a signed seven-bit number behind a valid bit |
| Timestamp.MonthLengths | src/timestamp.rs:19-81 | the days of every month from 1980 to 2107 |
| DirEntry.TypeRoundTrip | src/directory_entry.rs:204-240 | every byte is the code of its entry type, and the in-use bit tells free entries from used ones |
| DirEntry.FileRoundTrip | src/directory_entry.rs:105-200 | a file entry parses back to all its fields |
| DirEntry.StreamRoundTrip | src/directory_entry.rs:105-200 | a stream extension parses back to all its fields |
| DirEntry.NameRoundTrip | src/directory_entry.rs:105-200 | a file name entry parses back to its 15 units |
| DirEntry.FileBytes | src/directory_entry.rs:105-121 | each field of a file entry at its byte place, zeros in between |
| DirEntry.FileFields | src/directory_entry.rs:285-312 | each field read from the same bytes of any entry, unknown attributes dropped |
| DirEntry.StreamBytes | src/directory_entry.rs:170-182 | each field of a stream extension at its byte place, zeros in between |
| DirEntry.StreamFields | src/directory_entry.rs:315-333 | each field read from the same bytes of any entry, unknown flags dropped |
| DirEntry.NameBytes | src/directory_entry.rs:191-202 | the units of a name entry from byte 2 on, low byte first |
| DirEntry.NameFields | src/directory_entry.rs:335-350 | the units of a name entry are read from these bytes |
| DirEntry.EntryCodes | src/directory_entry.rs:204-240 | the codes of the three kinds of entry in a set |
| EntrySet.ChecksumTells | src/directory_entry.rs:778-788 | of two sets that differ in one byte the checksums are equal iff that is byte 2 or 3 |
| EntrySet.HelloChecksum | src/directory_entry.rs:833-838 | the checksum of a set written by another system is the one stored in it, 0x77F0 |
| EntrySet.MatchesName | src/directory.rs:65-103 | having the name looked for is being the same up to case unit by unit, and being a file is bit 5 of the attributes |
| EntrySet.BuildReadsBack | src/file_system.rs:700-738 | a set that was stored is read back with every field and every unit of the name |
| EntrySet.NameReadBack | src/file_system.rs:686-736 | the set stored for a name is read back with that name iff the name has at most 255 units |
| EntrySet.LongNameLost | src/file_system.rs:686-736 | a name of 256 letters is a counterexample |
| EntrySet.AddSet | src/file_system.rs:668-754 | a set stored at the first fit adds exactly that file to the listing, and still nothing in use follows an end marker |
| EntrySet.RemoveSet | src/file_system.rs:784-810 | tombstoning a set removes exactly that file from the listing |
| EntrySet.UpdateSet | src/file.rs:360-420 | rewriting the first two entries of a set changes exactly that file in the listing |
| EntrySet.SealedRight | src/directory_entry.rs:789-810 | storing the checksum in the entry it covers makes it right |
| EntrySet.FirstFitBeforeEnd | src/file_system.rs:890-924 | first fit leaves no end marker in front of a new set |
| EntrySet.FoundUsable | src/file_system.rs:890-924 | what the slot search finds is usable iff there is a usable run |
| EntrySet.ShortRunFound | src/file_system.rs:918-923 | a directory with one free entry at its end is a counterexample |
| DirReader.DirectoryEntryChain.Next | src/directory_entry.rs:624-678 | returns the next entry of the directory and its location, across sectors and clusters, and nothing after the last |
| DirWriter.DirSetWriter.Add | src/directory_entry.rs:740-762 | stores one entry of a set at its place and counts it into the checksum |
| DirWriter.DirSetWriter.CalcChecksum | src/directory_entry.rs:778-788 | the running checksum is the fold over all bytes of the entries so far, bytes 2 and 3 of the first left out |
| DirWriter.DirSetWriter.Finish | src/directory_entry.rs:791-818 | the first entry gets the checksum of all the entries |
| Directory.FindEmpty | src/file_system.rs:890-924 | the first fit if there is one; otherwise the free entries at the end, too few as they are, or DirectoryFull |
| Directory.WriteName | src/file_system.rs:722-736 | the name is stored 15 units to an entry, padded with zeros |
| Directory.CreateSet | src/file_system.rs:668-754 | on a legal name exactly the new file is added at the first fit, all fields, checksum and hash right, every byte of its entries given by place, all three times those of creation, all other entries byte for byte as they were; otherwise an error and no change |
| DirUpdate.ChangeSet | src/file.rs:360-420 | the set then says what was asked, its checksum right for the bytes stored, although the reader works on copies made before entries were rewritten; byte by byte, modification and access times are replaced and the creation time kept, and first cluster, lengths and flags are at their places; no other set changes |
| DirUpdate.MarkSetUnused | src/file_system.rs:784-810 | exactly the file's entries go out of use, across sectors, each losing the highest bit of its first byte and nothing else, and exactly that file leaves the listing |
| Lookup.FindFile | src/directory.rs:106-154 | the filtered scan returns the first set with the attributes, up to case the name, and a right hash; that is what a plain scan by name returns iff the first match by name has a right hash or there is none |
| Lookup.NextFileEntry | src/directory_entry.rs:519-608 | the first set from the reader on that the filter accepts |
| Lookup.MatchName | src/directory_entry.rs:550-600 | comparing a name 15 units at a time accepts iff the whole set is acceptable |
| Lookup.NextFileDirEntry | src/directory_entry.rs:492-517 | the next file entry before the end of the directory or the end marker |
| Lookup.FoundIsFirst | src/directory.rs:65-103 | what the filter finds first is the first set that matches by name and has a right hash |
| Lookup.HashedIsFirst | src/directory.rs:65-103 | that set is the first match by name iff the first match by name has a right hash or there is none |
| Lookup.AcceptsMatches | src/directory.rs:65-103 | a set passes the hash, length and chunk tests iff it has the name up to case and its stored hash is right |
| Lookup.WrongHashMissed | src/directory.rs:65-69 | a well-formed directory whose one file has a wrong hash is a counterexample |
| Names.SameNameUpcased | src/upcase_table.rs:60-69 | names identify the same file iff they have the same length and the table does not tell their units apart, those from 128 on standing for themselves |
| Names.DefaultSameName | src/upcase_table.rs:16-32 | with the default table, iff they differ in the case of ASCII letters alone |
| Names.IllegalIs | src/utils.rs:121-129 | the characters no name may have |
| Names.EncodeAndHash | src/utils.rs:34-61 | succeeds iff the name is legal, and yields the wrapping 16-bit hash of the up-cased name and its length |
| Names.HashTells | src/utils.rs:46-54 | names that differ in one byte of one up-cased unit have different hashes |
| Names.HashOfHelloTxt | src/utils.rs:186-192 | the hash of `HELLO.TXT` is 0x3046 |
| Names.HashOfWide | src/utils.rs:46-54 | in the hash of a unit with two bytes the low byte comes first |
| Names.HashPanics | src/utils.rs:49-54 | with overflow checks the hash fails iff for some unit of the up-cased name one of its two additions to the wrapping hash of the units before it exceeds 16 bits |
| Names.ShortNamePanics | src/utils.rs:49-54 | the six-letter name CCCBBA is a counterexample |
| Names.Utf16Chunks.NextChunk | src/utils.rs:98-112 | hands out a name 15 units at a time without losing or repeating one |
| Handles.Handles.Add | src/fs.rs:708-729 | the first handle after the last one given out that is not live; other handles keep their contents; it fails only with 2^32 - 1 live handles |
| Handles.Handles.Remove | src/fs.rs:731-733 | the item of a live handle and the table without it, or an error and no change |
| Handles.Handles.TakeAny | src/fs.rs:741-744 | takes out the item of the least live handle, or nothing from an empty table |
| Handles.AddThenRemove | src/fs.rs:690-744 | adding and removing gives the item back and leaves the table as it was |
| RunModel.CreatesUnwritable | src/file.rs:88-95 | `create` makes a file without `write` or `append` |
| RunModel.TruncatesUnwritable | src/file.rs:79-86 | `truncate` empties a file opened without `write` |

## Findings

Where the code does not do what it evidently means to, the model does what the code does, the exact
condition is proved, and a lemma exhibits an input. Where it differs from what its documentation says, a
lemma or a contract says what it does.

- A write whose last, partial sector starts on a cluster boundary behind the start of the write goes
  wrong: the tail is written without moving on to the next cluster (src/file.rs:791-792), and
  `remaining_bytes_in_cluster -= n` underflows (src/file.rs:1044-1048), a panic or a wrap-around depending
  on the build; the model returns `Underflow`. Condition: `FileData.BadTail`, and `File.File.Write` fails
  in this way iff it holds and there are enough clusters. Input: `FileData.TailUnderflows`.
- Opening for append takes the last cluster but computes the rest of it from the valid length
  (src/file_system.rs:218-231, src/file.rs:322-331). Right iff the valid length lies in the last cluster
  (`Cursor.AppendPlaced`); a file that fills its clusters exactly is overwritten from the start of its last
  cluster (`Cursor.AppendToFullCluster`).
- Seeking to the end of a chain that is exactly full leaves the cursor in a cluster that is not the file's
  when the chain is contiguous (src/file.rs:834), and is an error when it is in the FAT
  (src/file.rs:843-851). Right iff the position is in a cluster of the chain or the chain is empty
  (`File.File.Seek`, `FileData.SeekPlaced`). Input: `FileData.SeekToFullEnd`.
- A write behind the valid length makes stale bytes visible (src/file.rs:923-929): reading may move the
  cursor past the valid length, and `update_data_length` then declares the gap valid. The contents are right
  iff the gap happens to hold zeros (`File.File.Write`, `Contents.VisibleAfterWrite`). Input:
  `Contents.StaleByteShows`.
- The search for free directory entries returns a run at the end of the directory even if it is too short
  (src/file_system.rs:918-923). Usable iff some run is long enough (`EntrySet.FoundUsable`). Input:
  `EntrySet.ShortRunFound`.
- Names are not checked for their length, while one byte stores it and one byte the number of entries
  (src/file_system.rs:687, 712). The stored set is read back with its name iff the name has at most 255
  units (`EntrySet.NameReadBack`). Input: `EntrySet.LongNameLost`.
- Lookup compares the stored name hash first (src/directory.rs:65-69), so a set with a wrong hash is not
  found by its name. A lookup returns what a scan by name returns iff the first match by name has a right
  hash or there is no match (`Lookup.HashedIsFirst`, `Lookup.FindFile`). Input: `Lookup.WrongHashMissed`.
- LongestRun does not look before the start of the search unless nothing at all is free behind it
  (src/allocation.rs:475), so it may return a short run where a long enough one exists. Where one exists
  the request is met iff one lies behind the start of the search or nothing there is free
  (`FreeSearch.LongestMet`). Input: `FreeSearch.LongestMissed`.
- A write that runs out of clusters keeps those it already took, and the chain is then longer than the data
  length implies (src/file.rs:705-716). The write fails with `DiskFull` iff the shortfall exceeds the number
  of free clusters; the chain has then taken every free cluster, and fits the data length iff there was none
  (`File.File.Write`, `File.File.AllocateClustersFor`). Input: `FileData.FullDiskKeeps`. Runs of the model
  end there.
- When more than six sectors were touched the flush writes the caches one after the other, the FAT first
  (src/file.rs:230-233), not in the order that src/file.rs:235 promises. The order is kept iff no dirty FAT
  sector comes with a dirty bitmap or plain data sector, no dirty bitmap sector with a dirty plain data
  sector, and no dirty directory sector precedes a plain data sector (`Touched.OverflowOrder`,
  `Touched.FileDirty.Flush`); `Touched.FileDirty.Insert` says when the list overflows. Input:
  `FlushOrder.SevenTouched`.
- The name hash adds without wrapping (src/utils.rs:52-53), so in builds with overflow checks some legal names
  panic; the model returns the wrapped sum of other builds. Condition: `Names.HashPanics`. Input:
  `Names.ShortNamePanics`.
- The documentation says that `append` alone opens for writing (src/file.rs:69-73); writing checks `write`
  alone (src/file.rs:752): in the model a write that is not empty succeeds iff `write` was set
  (`RunModel.WritesIffWrite`).
- The documentation says that `create` without `write` or `append` is an error (src/file.rs:88-91); the file is
  created (src/file_system.rs:206-207): `RunModel.CreatesUnwritable`.
- The documentation says that `truncate` needs `write` (src/file.rs:81-82); a file opened without it is emptied
  all the same (src/file_system.rs:199-201): `RunModel.TruncatesUnwritable`.
- README.md:52 lists reading zeros past the valid length as still to do; the code does it
  (`File.File.Read`).
- The comment on `truncate_file` says that one cluster stays allocated (src/file_system.rs:480-481); none does
  (`FileSystem.FileSystem.TruncateFound`).

## Left out

- Failing devices: reads and writes of the device always succeed, so what a failed read leaves in a cache
  slot (src/slot_cache.rs:147-155) is not modelled.
- Directory trees: a file system has one directory of fixed clusters. Multi-level paths, splitting and
  trimming paths, creating and removing directories, and iterating over entries are not modelled.
- `rename`, `copy`, `copy_to` and the read-all and write-all helpers are not modelled.
- Mounting: the boot sector, the bitmap entry, the up-case table and the volume flags are parameters.
- Character encodings: names are sequences of 16-bit units, and the up-case table is a map on units.
- The clock: timestamps are parameters of the operations that store them.
- The actor interface, its channel, reply pool and semaphore; of src/fs.rs only the handle table is modelled,
  without its one-line `get` and `clear`.
- Several handles to one file: a file is open at most once, as the code keeps no table of open files.
- Logging and debug assertions.
- `usize` is taken to be 64 bits wide; lengths are unbounded, and `FileOps.FieldsFit` proves that they fit
  their 64-bit fields.
- Runs.Run: ends at a write for which there are too few clusters, and does not cover writes with a bad tail,
  writes behind the valid length, seeks to the end of a full chain, appending to a file whose valid length is
  not in its last cluster, or creating where the slot search finds too short a run or one across a cluster
  boundary; for each the operation's own contract says what happens.
- Directory.CreateSet: names longer than 255 units are not covered; the code stores them as sets that do not
  read back with the name, and what other operations then do with such a directory is not modelled.
- Directory.CreateSet: entry sets across a cluster boundary are not covered; the code does not support them.
- ChainStore.FreeFat: links that leave the heap are not covered; the code then reads whatever sector the
  entry would be in.
- FileSystem.FileSystem.TruncateFound: only truncation to nothing exists in the code.
- Timestamp.RoundTrip: encoding an invalid timestamp is taken in builds without debug assertions.
