/** The operations of the file system on one file: what each does to the disk, to the directory and
    to the state of all files (src/file_system.rs:186-242, 301-308, 424-550, 870-887; src/file.rs). */
module FileOps {
  import opened Allocator
  import opened Bytes
  import opened Chains
  import opened ChainStore
  import opened Conservation
  import opened DirEntry
  import opened Directory
  import opened DirPlace
  import opened DirReader
  import opened DirState
  import opened DirUpdate
  import opened DirWriter
  import opened Disk
  import opened EntrySet
  import opened FatAccess
  import opened File
  import opened FileData
  import opened FreeSearch
  import opened FsState
  import opened Lookup
  import opened Names
  import opened Results
  import opened Spots
  import opened Touched
  import opened Volume

  ghost function HandleOf(f: File): Handle
    reads f, f.touched
  {
    Handle(f.details, f.chain, f.cursor, f.current, f.remaining, f.touched.inserted, f.touched.isDirEntryDirty,
        f.canRead, f.canWrite)
  }

  /** File `id` of the state `fs` is open, and `f` is its handle. */
  ghost predicate Represents(f: File, fs: Fs, id: Name)
    reads f, f.touched
  {
    id in fs.open && id in fs.chains && f.cs == fs.chains[id] && HandleOf(f) == fs.open[id]
  }

  lemma HandleParts(f: File, fs: Fs, id: Name)
    requires Represents(f, fs, id)
    ensures fs.open[id].details == f.details && fs.open[id].dirty == f.touched.isDirEntryDirty && fs.chains[id] == f.cs
  {
  }

  /** A step of one file, seen from the state. */
  lemma Stepped(f: File, fs: Fs, id: Name, d: seq<Block>, v: Vol, u: set<Spot>) returns (next: Fs)
    requires f.Wired() && f.Owns()
    requires Sound(f.vol.g, d, u, fs) && v == Abs(d, f.vol.g) && id in fs.open && id in fs.chains
    requires OnlyOwn(v, f.vol.View(), fs.chains[id], f.cs)
    requires id in fs.records && Current(f.vol.g, fs.records[id], f.details, f.touched.isDirEntryDirty, f.cs)
    requires fs.open[id].inserted <= f.touched.inserted
    requires f.vol.Unsaved() <= u + f.touched.inserted
    ensures fs.chains[id] <= f.cs && next == Grow(fs, id, HandleOf(f), f.cs) && Represents(f, next, id)
    ensures Sound(f.vol.g, f.vol.flat, f.vol.Unsaved(), next)
    ensures forall j :: j in fs.records && j != id ==> SameFile(d, f.vol.flat, f.vol.g, fs, next, j)
    ensures AllStore(f.vol.g, fs.chains[id]) && AllStore(f.vol.g, f.cs)
    ensures SystemKept(v, Abs(f.vol.flat, f.vol.g), fs.system)
  {
    hide SystemKept, Volume.Coherent, Volume.Unsaved, Geometry.Valid, Held, FileDirty.Valid, Sound, SameFile, OnlyOwn,
         Abs, BitmapHeld, AllStore;
    OpenIsKnown(f.vol.g, d, u, fs, id);
    SoundFacts(f.vol.g, d, u, fs, id);
    HeldAllStore(f.vol.View(), f.vol.g, f.chain, f.details.noFat, f.cs);
    GrowKeeps(d, f.vol.flat, f.vol.g, u, f.vol.Unsaved(), fs, id, HandleOf(f), f.cs);
    next := Grow(fs, id, HandleOf(f), f.cs);
  }

  /** What `File::write` leaves behind, seen from the state. */
  lemma WriteStepped(f: File, d: seq<Block>, u: set<Spot>, fs: Fs, id: Name, x: seq<byte>, done: bool, table: UpcaseMap,
                     dir: seq<nat>) returns (next: Fs)
    requires f.Wired() && f.Owns()
    requires Sound(f.vol.g, d, u, fs) && id in fs.open && id in fs.chains && id in fs.records
    requires Recorded(d, f.vol.g, table, dir, fs) && Settled(f.vol.g, fs, id)
    requires OnlyOwn(Abs(d, f.vol.g), f.vol.View(), fs.chains[id], f.cs)
    requires Current(f.vol.g, fs.records[id], f.details, f.touched.isDirEntryDirty, f.cs)
    requires fs.open[id].inserted <= f.touched.inserted && f.vol.Unsaved() <= u + f.touched.inserted
    requires f.canRead == fs.open[id].canRead && f.canWrite == fs.open[id].canWrite
    requires done ==>
               && f.Placed() && f.Sized() && f.cursor <= f.details.dataLength && f.cursor == fs.open[id].cursor + |x|
               && if x == [] then f.vol.View() == Abs(d, f.vol.g) && f.cs == fs.chains[id]
                   && f.details == fs.open[id].details
                  else SplicedIn(f.vol.g, Abs(d, f.vol.g), f.vol.View(), f.cs, fs.open[id].cursor, x)
                       && f.details == Longer(fs.open[id].details, fs.open[id].cursor + |x|).(noFat := f.details.noFat)
    ensures Represents(f, next, id) && OnlyStepped(fs, next, id)
    ensures Sound(f.vol.g, f.vol.flat, f.vol.Unsaved(), next)
    ensures forall j :: j in fs.records && j != id ==> SameFile(d, f.vol.flat, f.vol.g, fs, next, j)
    ensures done ==> Written(d, f.vol.flat, f.vol.g, fs, next, id, x)
    ensures Recorded(f.vol.flat, f.vol.g, table, dir, next)
    ensures Entries(f.vol.flat, f.vol.g, dir) == Entries(d, f.vol.g, dir)
  {
    hide Volume.Coherent, Volume.View, Volume.Unsaved, Geometry.Valid, Sound, SameFile, OnlyOwn, FileDirty.Valid,
         Abs, File.Owns, SplicedIn, AllStore, Written, PlacedAt, ClustersFor, Recorded, SystemKept, Entries, Current,
         Longer;
    SoundFacts(f.vol.g, d, u, fs, id);
    next := Stepped(f, fs, id, d, Abs(d, f.vol.g), u);
    ViewIs(f.vol);
    DirectoryKept(d, f.vol.flat, f.vol.g, table, dir, fs, next);
    if done {
      IsWritten(d, f.vol.flat, f.vol.g, fs, next, id, x);
    }
  }

  /** `File::write` on the handle of file `id`; `next` is the state it leads to. */
  method WriteHandle(f: File, buf: seq<byte>, ghost table: UpcaseMap, ghost dir: seq<nat>, ghost fs: Fs,
                     ghost id: Name) returns (r: Result<()>, ghost next: Fs)
    requires f.Wired() && f.Owns() && f.Placed() && f.Sized() && f.cursor <= f.details.dataLength
    requires Represents(f, fs, id) && Sound(f.vol.g, f.vol.flat, f.vol.Unsaved(), fs)
    requires Recorded(f.vol.flat, f.vol.g, table, dir, fs)
    modifies f, f.touched, f.alloc, f.vol.Footprint()
    ensures f.Wired() && Represents(f, next, id) && OnlyStepped(fs, next, id)
    ensures Sound(f.vol.g, f.vol.flat, f.vol.Unsaved(), next)
    ensures forall j :: j in fs.records && j != id ==> SameFile(old(f.vol.flat), f.vol.flat, f.vol.g, fs, next, j)
    ensures r == Outcome(f.vol.g, old(f.vol.flat), fs, id, |buf|)
    ensures r.Ok? || r == Err(WriteNotEnabled) ==>
              Written(old(f.vol.flat), f.vol.flat, f.vol.g, fs, next, id, if r.Ok? then buf else [])
    ensures Recorded(f.vol.flat, f.vol.g, table, dir, next)
    ensures Entries(f.vol.flat, f.vol.g, dir) == Entries(old(f.vol.flat), f.vol.g, dir)
  {
    hide Volume.Coherent, Volume.View, Volume.Unsaved, Geometry.Valid, Sound, SameFile, OnlyOwn, FileDirty.Valid,
         Abs, File.Owns, WriteOutcome, SplicedIn, Shortfall, AllStore, Written, PlacedAt, ClustersFor, Recorded,
         SystemKept, Entries, OnlyStepped, Own;
    ViewIs(f.vol);
    OpenIsKnown(f.vol.g, f.vol.flat, f.vol.Unsaved(), fs, id);
    ghost var d, v, u := f.vol.flat, f.vol.View(), f.vol.Unsaved();
    SoundFacts(f.vol.g, f.vol.flat, f.vol.Unsaved(), fs, id);
    r := f.Write(buf);
    OwnPrefix(v, f.vol.View(), fs.chains[id], f.cs);
    CurrentKept(f.vol.g, fs.records[id], fs.open[id].details, f.details, fs.open[id].dirty,
        f.touched.isDirEntryDirty, fs.chains[id], f.cs);
    next := WriteStepped(f, d, u, fs, id, if r.Ok? then buf else [], r.Ok? || r == Err(WriteNotEnabled), table, dir);
  }

  lemma HeldFat(v: Vol, g: Geometry, chain: StoredChain, noFat: bool, cs: seq<nat>)
    requires g.Valid() && Held(v, g, chain, noFat, cs)
    ensures chain.Fat? ==> cs != []
  {
  }

  lemma NothingChanged(v: Vol, cs: seq<nat>)
    ensures OnlyOwn(v, v, cs, cs)
  {
  }

  /** `File::read` on the handle of file `id`. */
  method ReadHandle(f: File, n: nat, ghost fs: Fs, ghost id: Name) returns (r: Result<Option<seq<byte>>>,
                    ghost next: Fs)
    requires f.Wired() && f.Owns() && f.Placed() && f.Sized() && f.cursor <= f.details.dataLength
    requires Represents(f, fs, id) && Sound(f.vol.g, f.vol.flat, f.vol.Unsaved(), fs)
    modifies f`cursor, f`current, f`remaining, f.vol.Footprint() - {f.vol}
    ensures f.Wired() && Represents(f, next, id) && OnlyStepped(fs, next, id)
    ensures Sound(f.vol.g, f.vol.flat, f.vol.Unsaved(), next)
    ensures forall j :: j in fs.records && j != id ==> SameFile(f.vol.flat, f.vol.flat, f.vol.g, fs, next, j)
    ensures WasRead(f.vol.flat, f.vol.g, fs, next, id, n, r)
  {
    hide Volume.Coherent, Volume.View, Volume.Unsaved, Geometry.Valid, Sound, SameFile, OnlyOwn, FileDirty.Valid,
         Abs, Held, BitmapHeld, AllStore, PlacedAt, ClustersFor, Visible, WasRead, Own, File.Owns,
         File.HoldsClusters, Current;
    ViewIs(f.vol);
    OpenIsKnown(f.vol.g, f.vol.flat, f.vol.Unsaved(), fs, id);
    SoundFacts(f.vol.g, f.vol.flat, f.vol.Unsaved(), fs, id);
    ghost var v, u := f.vol.View(), f.vol.Unsaved();
    r := f.Read(n);
    NothingChanged(v, f.cs);
    next := Stepped(f, fs, id, f.vol.flat, v, u);
    IsRead(f.vol.flat, f.vol.g, fs, next, id, n, r);
  }

  /** `File::seek` on the handle of file `id`. */
  method SeekHandle(f: File, pos: nat, ghost fs: Fs, ghost id: Name) returns (r: Result<()>, ghost next: Fs)
    requires f.Wired() && f.Owns() && f.Sized()
    requires Represents(f, fs, id) && Sound(f.vol.g, f.vol.flat, f.vol.Unsaved(), fs)
    modifies f`cursor, f`current, f`remaining, f.vol.Footprint() - {f.vol}
    ensures f.Wired() && Represents(f, next, id) && OnlyStepped(fs, next, id)
    ensures Sound(f.vol.g, f.vol.flat, f.vol.Unsaved(), next)
    ensures forall j :: j in fs.records && j != id ==> SameFile(f.vol.flat, f.vol.flat, f.vol.g, fs, next, j)
    ensures WasSought(f.vol.flat, f.vol.g, fs, next, id, pos, r)
  {
    hide Volume.Coherent, Volume.View, Volume.Unsaved, Geometry.Valid, Sound, SameFile, OnlyOwn, FileDirty.Valid,
         Abs, Held, BitmapHeld, AllStore, PlacedAt, ClustersFor, Visible, Geometry.ClusterLength, File.Owns,
         File.HoldsClusters, Own, Current;
    ViewIs(f.vol);
    OpenIsKnown(f.vol.g, f.vol.flat, f.vol.Unsaved(), fs, id);
    SoundFacts(f.vol.g, f.vol.flat, f.vol.Unsaved(), fs, id);
    ghost var v, u := f.vol.View(), f.vol.Unsaved();
    HeldFat(v, f.vol.g, f.chain, f.details.noFat, f.cs);
    r := f.Seek(pos);
    NothingChanged(v, f.cs);
    next := Stepped(f, fs, id, f.vol.flat, v, u);
  }

  // ---- the directory and the state together ---------------------------------------------------

  /** The files are sound and the directory lists them. */
  ghost predicate Holds(vol: Volume, table: UpcaseMap, dir: seq<nat>, fs: Fs)
    reads vol, vol.Footprint()
  {
    vol.Valid() && Sound(vol.g, vol.flat, vol.Unsaved(), fs) && Recorded(vol.flat, vol.g, table, dir, fs)
  }

  /** Which entries of the directory are in use; `Filled` says that `n` of them changed that. */
  ghost predicate Filled(es: seq<RawEntry>, es': seq<RawEntry>, k: nat, n: nat, on: bool) {
    |es'| == |es| && forall i :: 0 <= i < |es| ==> (InUse(es'[i]) <==> if k <= i < k + n then on else InUse(es[i]))
  }

  lemma PutFills(es: seq<RawEntry>, es': seq<RawEntry>, k: nat, n: nat, f: FileSet)
    requires SetPut(es, es', k, n, f)
    ensures Filled(es, es', k, n, true)
  {
    hide InUse, WellFormed, ChecksumRight;
  }

  lemma SoundLess(g: Geometry, d: seq<Block>, u: set<Spot>, u': set<Spot>, fs: Fs)
    requires Sound(g, d, u, fs) && u' <= u
    ensures Sound(g, d, u', fs) && Covered(u', fs)
  {
    hide Books, FileOk;
  }

  /** Writing to the directory's clusters leaves every file as it was. */
  lemma DirWritten(d: seq<Block>, d': seq<Block>, g: Geometry, u: set<Spot>, u': set<Spot>, fs: Fs, dir: seq<nat>)
    requires Sound(g, d, u, fs) && IsDirectory(Abs(d, g).fat, g, dir) && (forall c :: c in dir ==> c in fs.system)
    requires Good(d', g) && u' <= u && OnlyData(Abs(d, g), Abs(d', g), dir)
    ensures Sound(g, d', u', fs) && IsDirectory(Abs(d', g).fat, g, dir)
    ensures forall j :: j in fs.records ==> SameFile(d, d', g, fs, fs, j)
  {
    hide Abs, IsDirectory, OnlyData, SameFile, Covered, FileOk, Books;
    DataFat(Abs(d, g), Abs(d', g), dir);
    SoundLess(g, d, u, u', fs);
    SystemWritten(d, d', g, u, u', fs, dir);
  }

  lemma RecordedParts(d: seq<Block>, g: Geometry, table: UpcaseMap, dir: seq<nat>, fs: Fs)
    requires Recorded(d, g, table, dir, fs)
    ensures g.Valid() && Good(d, g) && IsDirectory(Abs(d, g).fat, g, dir) && AllStore(g, dir) && Distinct(dir)
    ensures dir != []
    ensures WellFormed(Entries(d, g, dir)) && HashesRight(table, Entries(d, g, dir))
    ensures ListsAll(g, table, dir, Listing(Entries(d, g, dir)), fs.records)
    ensures forall c :: c in dir ==> c in fs.system
  {
    hide Abs, IsDirectory, ListsAll, Entries, WellFormed, HashesRight;
    DirectoryStores(Abs(d, g).fat, g, dir);
    HashesListed(g, Entries(d, g, dir), table, dir, fs.records);
  }

  lemma RecordedIs(d: seq<Block>, g: Geometry, table: UpcaseMap, dir: seq<nat>, fs: Fs, fs': Fs, d': seq<Block>)
    requires Recorded(d, g, table, dir, fs) && Good(d', g) && IsDirectory(Abs(d', g).fat, g, dir)
    requires fs'.system == fs.system
    requires AllStore(g, dir) && WellFormed(Entries(d', g, dir))
    requires ListsAll(g, table, dir, Listing(Entries(d', g, dir)), fs'.records)
    ensures Recorded(d', g, table, dir, fs')
  {
    hide Abs, IsDirectory, ListsAll, Entries, WellFormed;
  }

  // ---- creating an entry --------------------------------------------------------------------------

  const NEW_FILE_FLAGS: SecondaryFlags := 3  // AllocationPossible | NoFatChain

  lemma ArchiveOnly()
    ensures ContainsAll(ARCHIVE, ARCHIVE) && !ContainsAll(ARCHIVE, DIRECTORY)
  {
    assert BitOf(DIRECTORY, 4) by {
      assert BitOf(8, 3) by { assert BitOf(4, 2) by { assert BitOf(2, 1) by { assert BitOf(1, 0); } } }
    }
    assert !BitOf(ARCHIVE, 4) by {
      assert !BitOf(16, 3) by { assert !BitOf(8, 2) by { assert !BitOf(4, 1) by { assert !BitOf(2, 0); } } }
    }
  }

  /** What a freshly created set records. */
  lemma NewRecorded(g: Geometry, table: UpcaseMap, dir: seq<nat>, name: seq<u16>, k: nat, t: Stamp, sum: u16)
    requires g.Valid() && AllStore(g, dir) && k < Capacity(g, dir) && 0 < |name| < 256
    requires InOneCluster(g, dir, k, SetLength(|name|))
    ensures var f := NewSet(table, name, ARCHIVE, NEW_FILE_FLAGS, NO_CLUSTER_ID, 0, 0, t, sum);
            && SetInOrder(g, table, dir, k, f) && f.name == name && ContainsAll(f.file.attributes, ARCHIVE)
            && DetailsOfSet(g, dir, k, f)
                == FileDetails(NO_CLUSTER_ID, 0, 0, true, true, PlaceOf(g, dir, k), SetLength(|name|) - 1)
  {
    hide Capacity, InOneCluster, HashOf, Upcased, ContainsAll, PlaceOf;
    ArchiveOnly();
  }

  /** `create_file`: the new entry set is on its way to the device and all files are as they were. */
  method CreateEntry(vol: Volume, table: UpcaseMap, root: nat, name: seq<u16>, t: Stamp, ghost dir: seq<nat>,
                     ghost fs: Fs)
    returns (r: Result<FileDetails>, ghost k: nat)
    requires Holds(vol, table, dir, fs) && dir != [] && root == dir[0] && AllStore(vol.g, dir)
    requires |name| <= 255 && Upcased(table, name) !in fs.records
    requires IsLegal(name) ==> HasRoom(vol.g, EntriesOf(vol, dir), dir, SetLength(|name|))
    modifies vol.Footprint()
    ensures vol.Valid()
    ensures r.Ok? <==> IsLegal(name) && SomewhereFree(old(EntriesOf(vol, dir)), SetLength(|name|))
    ensures r.Err? ==>
              r.error == (if IsLegal(name) then DirectoryFull else InvalidFileName) && vol.flat == old(vol.flat)
                  && Holds(vol, table, dir, fs)
    ensures r.Ok? ==>
              var next := Created(fs, Upcased(table, name), r.value);
              && Holds(vol, table, dir, next) && IsEmpty(r.value) && Settled(vol.g, next, Upcased(table, name))
              && r.value.secondaryCount + 1 == SetLength(|name|)
              && (forall j :: j in fs.records ==> SameFile(old(vol.flat), vol.flat, vol.g, fs, next, j))
              && FirstFit(old(EntriesOf(vol, dir)), k, SetLength(|name|))
              && Used(vol.flat, vol.g, dir) == Mark(old(Used(vol.flat, vol.g, dir)), k, SetLength(|name|), true)
              && k < Capacity(vol.g, dir) && r.value.location == PlaceOf(vol.g, dir, k)
  {
    hide Volume.Coherent, Volume.View, Volume.Unsaved, Geometry.Valid, Sound, SameFile, FileDirty.Valid, Abs,
         AllStore, Distinct, IsDirectory, ListsAll, Entries, WellFormed, HashesRight, OnlyData, HasRoom,
         SomewhereFree, FirstFit, SetPut, Settled, PlaceOf, Capacity, Filled, SetInOrder, DetailsOfSet, ContainsAll,
         NewSet, Listing, Recorded, Used, Mark, IsLegal, Upcased, InOneCluster;
    ghost var d, g, u, id := vol.flat, vol.g, vol.Unsaved(), Upcased(table, name);
    ViewIs(vol);
    RecordedParts(d, g, table, dir, fs);
    ghost var es := EntriesOf(vol, dir);
    var touched := new FileDirty(DEFAULT_TOUCHED_SECTORS, vol.g);
    var loc;
    ghost var sum;
    loc, k, sum := CreateSet(vol, touched, table, name, root, NO_CLUSTER_ID, ARCHIVE, NEW_FILE_FLAGS, 0, 0, t, dir);
    ViewIs(vol);
    if loc.Err? {
      SoundLess(g, d, u, vol.Unsaved(), fs);
      return Err(loc.error), k;
    }
    ghost var written := touched.Flush(vol);
    r := Ok(FileDetails(NO_CLUSTER_ID, 0, 0, true, true, loc.value, SetLength(|name|) - 1));
    EntryCreated(d, vol.flat, g, u, vol.Unsaved(), table, dir, fs, name, k, t, sum, r.value);
    FilledUsed(d, vol.flat, g, dir, k, SetLength(|name|), true);
  }

  /** The new entry set and the state of all files. */
  lemma EntryCreated(d: seq<Block>, d': seq<Block>, g: Geometry, u: set<Spot>, u': set<Spot>, table: UpcaseMap,
                     dir: seq<nat>, fs: Fs,
                     name: seq<u16>, k: nat, t: Stamp, sum: u16, f: FileDetails)
    requires Sound(g, d, u, fs) && Recorded(d, g, table, dir, fs) && Good(d', g) && u' <= u && AllStore(g, dir)
    requires OnlyData(Abs(d, g), Abs(d', g), dir) && 0 < |name| < 256 && Upcased(table, name) !in fs.records
    requires k < Capacity(g, dir) && InOneCluster(g, dir, k, SetLength(|name|)) && WellFormed(Entries(d, g, dir))
    requires k !in Listing(Entries(d, g, dir))
    requires SetPut(Entries(d, g, dir), Entries(d', g, dir), k, SetLength(|name|),
                    NewSet(table, name, ARCHIVE, NEW_FILE_FLAGS, NO_CLUSTER_ID, 0, 0, t, sum))
    requires f == FileDetails(NO_CLUSTER_ID, 0, 0, true, true, PlaceOf(g, dir, k), SetLength(|name|) - 1)
    ensures var next := Created(fs, Upcased(table, name), f);
            && Sound(g, d', u', next) && Recorded(d', g, table, dir, next) && Settled(g, next, Upcased(table, name))
            && (forall j :: j in fs.records ==> SameFile(d, d', g, fs, next, j))
    ensures Filled(Entries(d, g, dir), Entries(d', g, dir), k, SetLength(|name|), true)
  {
    hide Geometry.Valid, Sound, SameFile, Abs, AllStore, IsDirectory, ListsAll, Entries, WellFormed, HashesRight,
         OnlyData, Settled, PlaceOf, Capacity, Filled, SetInOrder, DetailsOfSet, ContainsAll, NewSet, Recorded,
         Upcased, InOneCluster, ChangedWithin, ChecksumRight, InUse;
    RecordedParts(d, g, table, dir, fs);
    var es, es', id := Entries(d, g, dir), Entries(d', g, dir), Upcased(table, name);
    var set_ := NewSet(table, name, ARCHIVE, NEW_FILE_FLAGS, NO_CLUSTER_ID, 0, 0, t, sum);
    var next := Created(fs, id, f);
    PutFills(es, es', k, SetLength(|name|), set_);
    DirWritten(d, d', g, u, u', fs, dir);
    CreateKeeps(d', g, u', fs, id, f);
    NewRecorded(g, table, dir, name, k, t, sum);
    PutListed(g, table, dir, Listing(es), fs.records, k, set_, id);
    RecordedIs(d, g, table, dir, fs, next, d');
    forall j | j in fs.records ensures SameFile(d, d', g, fs, next, j) {
      SameFileTrans(d, d', d', g, fs, fs, next, j);
    }
  }

  // ---- finding an entry -----------------------------------------------------------------------------

  /** The details that a lookup hands on. */
  function DetailsFound(x: Lookup.Found): FileDetails {
    FileDetails(x.stream.firstCluster, x.stream.dataLength, x.stream.validDataLength, NoFatChain(x.stream.flags),
                x.stream.flags % 2 == 1, x.location, x.file.secondaryCount)
  }

  /** Set `k` of the directory is that of a file whose name is `name` up to case. */
  ghost predicate NamedAt(table: UpcaseMap, m: map<nat, FileSet>, k: nat, name: seq<u16>) {
    k in m && m[k].file.attributes / 32 % 2 == 1 && SameName(table, m[k].name, name)
  }

  /** `r` is what the entries of the directory say of the file with this name: there is a set for it exactly
      when something was found, and it says what was found. */
  ghost predicate FoundBy(g: Geometry, es: seq<RawEntry>, table: UpcaseMap, dir: seq<nat>, name: seq<u16>,
                          r: Option<FileDetails>) {
    && WellFormed(es) && g.Valid() && AllStore(g, dir)
    && (r.Some? <==> exists k: nat :: NamedAt(table, Listing(es), k, name))
    && forall k: nat :: NamedAt(table, Listing(es), k, name) ==>
         && r.Some? && k < Capacity(g, dir) && r.value.location == PlaceOf(g, dir, k)
         && var f := Listing(es)[k];
         && r.value.firstCluster == f.stream.firstCluster && r.value.dataLength == f.stream.dataLength
         && r.value.validDataLength == f.stream.validDataLength && (r.value.noFat <==> f.stream.flags >= 2)
         && r.value.secondaryCount == f.file.secondaryCount
  }

  lemma ListsNamed(table: UpcaseMap, m: map<nat, FileSet>, k: nat, name: seq<u16>)
    ensures Lists(table, m, k, Upcased(table, name)) <==> NamedAt(table, m, k, name)
  {
    hide ContainsAll, Upcased, SameName;
    if k in m {
      ArchiveBit(m[k].file.attributes);
      SameNameUpcased(table, m[k].name, name);
    }
  }

  lemma RecordFound(d: seq<Block>, g: Geometry, table: UpcaseMap, dir: seq<nat>, fs: Fs, name: seq<u16>)
    requires Recorded(d, g, table, dir, fs)
    ensures var id := Upcased(table, name);
            && AllStore(g, dir)
            && FoundBy(g, Entries(d, g, dir), table, dir, name, if id in fs.records then Some(fs.records[id]) else None)
  {
    hide Abs, IsDirectory, Entries, WellFormed, HashesRight, Upcased, ContainsAll, SetInOrder, NamedAt, Lists,
         PlaceOf, Capacity, AllStore, Distinct, SameName, Listing;
    RecordedParts(d, g, table, dir, fs);
    var m, id := Listing(Entries(d, g, dir)), Upcased(table, name);
    forall k: nat ensures Lists(table, m, k, id) <==> NamedAt(table, m, k, name) {
      ListsNamed(table, m, k, name);
    }
    forall k: nat | NamedAt(table, m, k, name)
      ensures k in m && k < Capacity(g, dir) && fs.records[id] == DetailsOfSet(g, dir, k, m[k])
    {
      NamedThere(table, m, k, name);
    }
  }

  lemma NamedThere(table: UpcaseMap, m: map<nat, FileSet>, k: nat, name: seq<u16>)
    requires NamedAt(table, m, k, name)
    ensures k in m
  {
  }

  /** `find_file_inner` for a file in this directory: finds it exactly when it is there, in whatever
      case its name is given, and returns what is recorded of it. An empty path has no last part to
      look up. */
  method FindEntry(vol: Volume, table: UpcaseMap, root: nat, name: seq<u16>, ghost dir: seq<nat>, ghost fs: Fs)
    returns (r: Result<Option<FileDetails>>)
    requires Holds(vol, table, dir, fs) && dir != [] && root == dir[0]
    modifies vol.Footprint() - {vol}
    ensures vol.Valid() && Holds(vol, table, dir, fs)
    ensures r == if name == [] then Ok(None)
                 else if !IsLegal(name) then Err(InvalidFileName)
                 else if Upcased(table, name) in fs.records then Ok(Some(fs.records[Upcased(table, name)]))
                 else Ok(None)
    ensures r.Ok? ==> AllStore(vol.g, dir) && FoundBy(vol.g, EntriesOf(vol, dir), table, dir, name, r.value)
  {
    hide Volume.Coherent, Volume.View, Volume.Unsaved, Geometry.Valid, Sound, SameFile, FileDirty.Valid, Abs,
         AllStore, Distinct, IsDirectory, ListsAll, Entries, WellFormed, HashesRight, OnlyData, SetPut, Settled,
         PlaceOf, Capacity, Filled, DetailsOfSet, Listing, Recorded, Upcased, InOneCluster, FirstMatch, FirstHashed,
         HashRight, FoundBy;
    ViewIs(vol);
    RecordedParts(vol.flat, vol.g, table, dir, fs);
    RecordFound(vol.flat, vol.g, table, dir, fs, name);
    if name == [] {
      NamesNotEmpty(vol.flat, vol.g, table, dir, fs);
      NoLetters(table);
      return Ok(None);
    }
    ghost var es, u := EntriesOf(vol, dir), vol.Unsaved();
    var found;
    ghost var k;
    found, k := FindFile(vol, table, root, name, Some(ARCHIVE), dir);
    SoundLess(vol.g, vol.flat, u, vol.Unsaved(), fs);
    if found.Err? {
      return Err(InvalidFileName);
    }
    RightHashed(table, es, name, Some(ARCHIVE), k);
    LookedUp(vol.g, es, table, dir, fs.records, name, k);
    if found.value.None? {
      return Ok(None);
    }
    FoundDetails(vol.g, dir, k.value, Listing(es)[k.value]);
    r := Ok(Some(DetailsFound(found.value.value)));
  }

  lemma NoLetters(table: UpcaseMap)
    ensures Upcased(table, []) == []
  {
  }

  lemma FoundDetails(g: Geometry, dir: seq<nat>, k: nat, f: FileSet)
    requires g.Valid() && AllStore(g, dir) && k < Capacity(g, dir)
    ensures DetailsFound(Lookup.Found(f.file, f.stream, PlaceOf(g, dir, k))) == DetailsOfSet(g, dir, k, f)
  {
    hide PlaceOf, Capacity;
  }

  // ---- changing an entry ----------------------------------------------------------------------------

  /** Where the entry set of a file is, ready to be changed. */
  lemma EntryHere(d: seq<Block>, g: Geometry, table: UpcaseMap, dir: seq<nat>, fs: Fs, id: Name) returns (k: nat)
    requires Recorded(d, g, table, dir, fs) && id in fs.records && AllStore(g, dir) && WellFormed(Entries(d, g, dir))
    ensures k < Capacity(g, dir) && Lists(table, Listing(Entries(d, g, dir)), k, id)
    ensures fs.records[id] == DetailsOfSet(g, dir, k, Listing(Entries(d, g, dir))[k])
    ensures fs.records[id].location == PlaceOf(g, dir, k)
    ensures SetHere(g, Entries(d, g, dir), dir, k, fs.records[id].secondaryCount + 1)
  {
    hide Abs, IsDirectory, Entries, WellFormed, Capacity, PlaceOf, Upcased, ContainsAll;
    k := IndexOf(d, g, table, dir, fs, id);
    var es := Entries(d, g, dir);
    SetHereIs(g, es, dir, k, Listing(es)[k]);
  }

  lemma SetHereIs(g: Geometry, es: seq<RawEntry>, dir: seq<nat>, k: nat, f: FileSet)
    requires g.Valid() && WellFormed(es) && k in Listing(es) && f == Listing(es)[k]
    requires InOneCluster(g, dir, k, f.file.secondaryCount + 1)
    ensures SetHere(g, es, dir, k, f.file.secondaryCount + 1)
  {
    FileHead(es[k]);
  }

  /** The record after a change of the entry set. */
  function ChangedDetails(f: FileDetails, c: Change): FileDetails {
    var flags := if c.flags.Some? then c.flags.value else (if f.noFat then 2 else 0) + (if f.allocation then 1 else 0);
    f.(firstCluster := c.firstCluster, dataLength := c.length, validDataLength := c.valid, noFat := flags >= 2,
        allocation := flags % 2 == 1)
  }

  lemma ChangedRecord(g: Geometry, table: UpcaseMap, dir: seq<nat>, k: nat, f: FileSet, c: Change, sum: u16)
    requires g.Valid() && AllStore(g, dir) && k < Capacity(g, dir)
    ensures DetailsOfSet(g, dir, k, Changed(f, c, sum)) == ChangedDetails(DetailsOfSet(g, dir, k, f), c)
    ensures SetInOrder(g, table, dir, k, f) ==> SetInOrder(g, table, dir, k, Changed(f, c, sum))
    ensures Changed(f, c, sum).name == f.name && Changed(f, c, sum).file.attributes == f.file.attributes
  {
    hide PlaceOf, Capacity, ContainsAll, InOneCluster, HashOf, Upcased;
  }

  /** The state when only the record of file `id` was changed on the disk. */
  ghost function WithRecord(fs: Fs, id: Name, f: FileDetails): Fs { fs.(records := fs.records[id := f]) }

  /** The entry set of file `id` is rewritten; every file's data is as it was. */
  method ChangeEntry(vol: Volume, touched: FileDirty, table: UpcaseMap, f: FileDetails, c: Change, ghost dir: seq<nat>,
                     ghost fs: Fs, ghost id: Name)
    requires Holds(vol, table, dir, fs) && touched.Valid(vol.g) && id in fs.records && SamePlace(fs.records[id], f)
    modifies vol.Footprint(), touched
    ensures vol.Valid() && touched.Valid(vol.g) && touched.isDirEntryDirty == old(touched.isDirEntryDirty)
    ensures Sound(vol.g, vol.flat, old(vol.Unsaved()), fs)
    ensures Recorded(vol.flat, vol.g, table, dir, WithRecord(fs, id, ChangedDetails(fs.records[id], c)))
    ensures forall j :: j in fs.records ==> SameFile(old(vol.flat), vol.flat, vol.g, fs, fs, j)
    ensures AllStore(vol.g, dir) && Filled(old(EntriesOf(vol, dir)), EntriesOf(vol, dir), 0, 0, false)
    ensures SaysNow(old(EntriesOf(vol, dir)), EntriesOf(vol, dir), IndexAt(vol.g, dir, f.location), c)
    ensures vol.View() == old(vol.View()).(data := vol.View().data)
    ensures old(touched.inserted) <= touched.inserted
    ensures vol.Unsaved() <= old(vol.Unsaved()) + touched.inserted
  {
    hide Volume.Coherent, Volume.View, Volume.Unsaved, Geometry.Valid, Sound, SameFile, FileDirty.Valid, Abs,
         AllStore, Distinct, IsDirectory, ListsAll, Entries, WellFormed, HashesRight, OnlyData, SetPut, Settled,
         PlaceOf, Capacity, Filled, DetailsOfSet, Listing, Recorded, Upcased, InOneCluster, SetHere, ChangedDetails,
         Changed, SetInOrder, WithRecord, SaysNow, IndexAt;
    ViewIs(vol);
    ghost var d, u := vol.flat, vol.Unsaved();
    RecordedParts(d, vol.g, table, dir, fs);
    ghost var k := EntryHere(d, vol.g, table, dir, fs, id);
    ghost var sum := ChangeSet(vol, touched, f.location, f.secondaryCount, c, dir, k);
    IndexAtPlace(vol.g, dir, k);
    ViewIs(vol);
    EntryChanged(d, vol.flat, vol.g, u, table, dir, fs, id, k, c, sum);
  }

  lemma EntryChanged(d: seq<Block>, d': seq<Block>, g: Geometry, u: set<Spot>, table: UpcaseMap, dir: seq<nat>, fs: Fs,
                     id: Name, k: nat, c: Change, sum: u16)
    requires Sound(g, d, u, fs) && Recorded(d, g, table, dir, fs) && Good(d', g) && AllStore(g, dir) && id in fs.records
    requires OnlyData(Abs(d, g), Abs(d', g), dir) && WellFormed(Entries(d, g, dir)) && k < Capacity(g, dir)
    requires Lists(table, Listing(Entries(d, g, dir)), k, id)
    requires fs.records[id] == DetailsOfSet(g, dir, k, Listing(Entries(d, g, dir))[k])
    requires SetHere(g, Entries(d, g, dir), dir, k, fs.records[id].secondaryCount + 1)
    requires SetPut(Entries(d, g, dir), Entries(d', g, dir), k, fs.records[id].secondaryCount + 1,
             Changed(Listing(Entries(d, g, dir))[k], c, sum))
    ensures Sound(g, d', u, fs) && Recorded(d', g, table, dir, WithRecord(fs, id, ChangedDetails(fs.records[id], c)))
    ensures forall j :: j in fs.records ==> SameFile(d, d', g, fs, fs, j)
    ensures Filled(Entries(d, g, dir), Entries(d', g, dir), 0, 0, false)
    ensures Abs(d', g) == Abs(d, g).(data := Abs(d', g).data)
  {
    hide Geometry.Valid, Sound, SameFile, Abs, AllStore, IsDirectory, Entries, WellFormed, HashesRight, OnlyData,
         PlaceOf, Capacity, Filled, SetInOrder, DetailsOfSet, ContainsAll, Recorded, Upcased, InOneCluster, Changed,
         ChangedDetails, ListsAll, SetPut, Listing, FileOk, Books, Covered;
    RecordedParts(d, g, table, dir, fs);
    var es, es' := Entries(d, g, dir), Entries(d', g, dir);
    var f := Listing(es)[k];
    ChangedRecord(g, table, dir, k, f, c, sum);
    ListedInOrder(g, table, dir, Listing(es), fs.records, k);
    PutListed(g, table, dir, Listing(es), fs.records, k, Changed(f, c, sum), id);
    PutParts(es, es', k, fs.records[id].secondaryCount + 1, Changed(f, c, sum));
    DirWritten(d, d', g, u, u, fs, dir);
    DataFat(Abs(d, g), Abs(d', g), dir);
    RecordedIs(d, g, table, dir, fs, WithRecord(fs, id, ChangedDetails(fs.records[id], c)), d');
    SetUsed(g, es, es', dir, k, fs.records[id].secondaryCount + 1, Changed(f, c, sum));
  }

  lemma ListedInOrder(g: Geometry, table: UpcaseMap, dir: seq<nat>, m: map<nat, FileSet>,
                      records: map<Name, FileDetails>, k: nat)
    requires g.Valid() && AllStore(g, dir) && ListsAll(g, table, dir, m, records) && k in m
    ensures SetInOrder(g, table, dir, k, m[k])
  {
  }

  lemma PutParts(es: seq<RawEntry>, es': seq<RawEntry>, k: nat, n: nat, f: FileSet)
    requires SetPut(es, es', k, n, f)
    ensures WellFormed(es) && WellFormed(es') && Listing(es') == Listing(es)[k := f]
  {
  }

  /** Rewriting a set changes nothing about which entries are in use. */
  lemma SetUsed(g: Geometry, es: seq<RawEntry>, es': seq<RawEntry>, dir: seq<nat>, k: nat, n: nat, f: FileSet)
    requires g.Valid() && SetHere(g, es, dir, k, n) && SetPut(es, es', k, n, f)
    ensures Filled(es, es', 0, 0, false)
  {
    hide InUse, WellFormed, ChecksumRight, InOneCluster, SetAt;
    HereSet(g, es, dir, k, n);
    AllInUse(es, k);
  }

  lemma RecordedSame(d: seq<Block>, g: Geometry, table: UpcaseMap, dir: seq<nat>, fs: Fs, fs': Fs)
    requires Recorded(d, g, table, dir, fs) && fs'.system == fs.system && fs'.records == fs.records
    ensures Recorded(d, g, table, dir, fs')
  {
    hide Abs, IsDirectory, ListsAll, Entries, WellFormed;
  }

  // ---- flushing -------------------------------------------------------------------------------------

  function FlagsOf(f: FileDetails): SecondaryFlags {
    (if f.noFat then 2 else 0) + (if f.allocation then 1 else 0)
  }

  /** What `File::flush` stores. */
  lemma FlushedDetails(g: Geometry, fs: Fs, id: Name, c: Change)
    requires g.Valid() && id in fs.open && id in fs.records && id in fs.chains && fs.open[id].dirty
    requires Current(g, fs.records[id], fs.open[id].details, fs.open[id].dirty, fs.chains[id])
    requires var f := fs.open[id].details;
             c.firstCluster == FirstOf(fs.open[id].chain) && c.valid == f.validDataLength
                 && c.length == f.dataLength && c.flags == Some(FlagsOf(f))
    ensures ChangedDetails(fs.records[id], c) == Flushed(fs, id)
  {
    hide ClustersFor;
  }

  lemma NotDirty(fs: Fs, id: Name)
    requires id in fs.open && id in fs.records && !fs.open[id].dirty
    ensures Flushed(fs, id) == fs.records[id] && WithRecord(fs, id, Flushed(fs, id)) == fs
  {
    assert fs.records[id := fs.records[id]] == fs.records;
  }

  /** A file that fits the heap has lengths and cluster ids that fit their fields. */
  lemma FieldsFit(v: Vol, g: Geometry, chain: StoredChain, f: FileDetails, cs: seq<nat>)
    requires g.Valid() && |v.fat| == g.EndCluster() && Held(v, g, chain, f.noFat, cs)
    requires |cs| == ClustersFor(f.dataLength, g) && f.validDataLength <= f.dataLength
    ensures FirstOf(chain) < TWO32 && f.dataLength < TWO64 && f.validDataLength < TWO64
  {
    HeapIds(g);
    assert chain.Contiguous? || chain.Fat? ==> cs[0] == FirstOf(chain);
    ChainSize(cs, g);
    LengthPositive(g);
    CeilBound(f.dataLength, g.ClusterLength());
    MulMono(|cs|, g.clusterCount, g.ClusterLength());
    WideProduct(g.clusterCount, g.ClusterLength());
  }

  lemma WideProduct(a: nat, b: nat)
    requires a < TWO32 && b < TWO32
    ensures a * b < TWO64
  {
    MulMono(a, TWO32 - 1, b);
  }

  lemma ChainSize(cs: seq<nat>, g: Geometry)
    requires Distinct(cs) && InHeap(cs, g.EndCluster())
    ensures |cs| <= g.clusterCount
  {
    DistinctSize(cs);
    RunSize(Run(FIRST_CLUSTER_ID, g.clusterCount));
    assert SetOf(cs) <= Clusters(Run(FIRST_CLUSTER_ID, g.clusterCount));
    SubsetCount(SetOf(cs), Clusters(Run(FIRST_CLUSTER_ID, g.clusterCount)));
  }

  lemma SubsetCount(a: set<nat>, b: set<nat>)
    requires a <= b
    ensures |a| <= |b|
  {
    assert b == a + (b - a);
  }

  /** What flushing a file does to the entries of its set, which start at `k`: if they are out of date the
      first gets the time `t`, and the second the first cluster, lengths and flags of the file. */
  ghost predicate EntryFlushed(es: seq<RawEntry>, es': seq<RawEntry>, k: nat, f: FileDetails, cs: seq<nat>, dirty: bool,
                               t: Stamp) {
    if !dirty then es' == es
    else
      && k + 1 < |es| && |es'| == |es| && Restamped(es[k], es'[k], t)
      && Repointed(es[k + 1], es'[k + 1], if cs == [] then 0 else cs[0], f.validDataLength, f.dataLength,
                   (if f.noFat then 2 else 0) + (if f.allocation then 1 else 0))
  }

  lemma FlushSays(es: seq<RawEntry>, es': seq<RawEntry>, k: nat, f: FileDetails, chain: StoredChain, fat: seq<nat>,
                  cs: seq<nat>, t: Stamp, c: Change)
    requires SaysNow(es, es', k, c) && Rep(fat, chain, f.noFat, cs)
    requires c.firstCluster == FirstOf(chain) && c.valid == f.validDataLength && c.length == f.dataLength
    requires c.flags == Some(FlagsOf(f)) && c.time == Some(t)
    ensures EntryFlushed(es, es', k, f, cs, true, t)
  {
    hide Restamped, Repointed, Linked;
  }

  lemma HeldRep(v: Vol, g: Geometry, chain: StoredChain, noFat: bool, cs: seq<nat>)
    requires g.Valid() && Held(v, g, chain, noFat, cs)
    ensures Rep(v.fat, chain, noFat, cs)
  {
  }

  /** `File::flush`: rewrites the entry set if it is out of date, then saves everything touched. The
      directory afterwards records the file as it is, and nothing that was written through this handle is
      unsaved. */
  method FlushHandle(f: File, table: UpcaseMap, t: Stamp, ghost dir: seq<nat>, ghost fs: Fs, ghost id: Name)
    requires f.Wired() && f.Owns() && f.Sized() && Represents(f, fs, id) && Holds(f.vol, table, dir, fs)
    requires Settled(f.vol.g, fs, id)
    modifies f.touched, f.vol.Footprint()
    ensures f.Wired() && id in fs.open && id in fs.records && Represents(f, Saved(fs, id), id)
    ensures Holds(f.vol, table, dir, Saved(fs, id))
    ensures f.vol.Unsaved() <= old(f.vol.Unsaved()) - old(f.touched.inserted)
    ensures forall j :: j in fs.records && j != id ==>
              SameFile(old(f.vol.flat), f.vol.flat, f.vol.g, fs, Saved(fs, id), j)
    ensures Settled(f.vol.g, Saved(fs, id), id)
    ensures SameContents(old(f.vol.flat), f.vol.flat, f.vol.g, fs, Saved(fs, id), id)
    ensures Used(f.vol.flat, f.vol.g, dir) == old(Used(f.vol.flat, f.vol.g, dir))
    ensures AllStore(f.vol.g, dir)
            && EntryFlushed(old(EntriesOf(f.vol, dir)), EntriesOf(f.vol, dir), IndexAt(f.vol.g, dir, f.details.location),
                            f.details, f.cs, old(f.touched.isDirEntryDirty), t)
  {
    hide Volume.Coherent, Volume.View, Volume.Unsaved, Geometry.Valid, Sound, SameFile, FileDirty.Valid, Abs,
         AllStore, Distinct, IsDirectory, ListsAll, Entries, WellFormed, OnlyData, Settled, PlaceOf, Capacity,
         Filled, Recorded, Used, InOneCluster, ClustersFor, BitmapHeld, ChangedDetails, Current, SameContents,
         FirstOf, Held, FlagsOf, File.HoldsClusters, Own, SaysNow, IndexAt, Restamped, Repointed, Rep;
    ghost var d, g, u := f.vol.flat, f.vol.g, f.vol.Unsaved();
    ViewIs(f.vol);
    RecordedParts(d, g, table, dir, fs);
    OpenIsKnown(g, d, u, fs, id);
    SoundFacts(g, d, u, fs, id);
    OpenCurrent(g, Abs(d, g), fs, id);
    FieldsFit(f.vol.View(), g, f.chain, f.details, f.cs);
    if f.touched.isDirEntryDirty {
      var c := Change(FirstOf(f.chain), f.details.validDataLength, f.details.dataLength, Some(FlagsOf(f.details)), Some(t));
      FlushedDetails(g, fs, id, c);
      HeldRep(f.vol.View(), g, f.chain, f.details.noFat, f.cs);
      ghost var es, fat := EntriesOf(f.vol, dir), f.vol.View().fat;
      ChangeEntry(f.vol, f.touched, table, f.details, c, dir, fs, id);
      FlushSays(es, EntriesOf(f.vol, dir), IndexAt(g, dir, f.details.location), f.details, f.chain, fat, f.cs, t, c);
    } else {
      NotDirty(fs, id);
      SameFiles(d, g, u, fs);
      NoneFilled(EntriesOf(f.vol, dir));
    }
    ghost var written := f.touched.Flush(f.vol);
    HandleSaved(d, f.vol.flat, g, u, f.vol.Unsaved(), table, dir, fs, id);
    NothingFilledUsed(d, f.vol.flat, g, dir);
  }

  lemma OpenCurrent(g: Geometry, v: Vol, fs: Fs, id: Name)
    requires g.Valid() && id in fs.open && id in fs.records && id in fs.chains && FileOk(g, v, fs, id)
    ensures Current(g, fs.records[id], fs.open[id].details, fs.open[id].dirty, fs.chains[id])
    ensures SamePlace(fs.records[id], fs.open[id].details)
    ensures Held(v, g, fs.open[id].chain, fs.open[id].details.noFat, fs.chains[id])
  {
  }

  lemma SameFiles(d: seq<Block>, g: Geometry, u: set<Spot>, fs: Fs)
    requires Sound(g, d, u, fs)
    ensures forall j :: j in fs.records ==> SameFile(d, d, g, fs, fs, j)
  {
    hide Visible, PlacedAt, ClustersFor, AllStore, Ownership;
  }

  lemma NoneFilled(es: seq<RawEntry>)
    ensures Filled(es, es, 0, 0, false)
  {
  }

  /** Once everything a file touched is saved the state is the one after its flush. */
  lemma HandleSaved(d: seq<Block>, d': seq<Block>, g: Geometry, u: set<Spot>, u': set<Spot>, table: UpcaseMap,
                    dir: seq<nat>, fs: Fs, id: Name)
    requires Good(d', g) && Sound(g, d', u, fs) && id in fs.open && id in fs.records && Settled(g, fs, id)
    requires Recorded(d', g, table, dir, WithRecord(fs, id, Flushed(fs, id))) && u' <= u - fs.open[id].inserted
    requires forall j :: j in fs.records ==> SameFile(d, d', g, fs, fs, j)
    ensures Sound(g, d', u', Saved(fs, id)) && Recorded(d', g, table, dir, Saved(fs, id))
    ensures Settled(g, Saved(fs, id), id)
    ensures SameContents(d, d', g, fs, Saved(fs, id), id)
    ensures forall j :: j in fs.records && j != id ==> SameFile(d, d', g, fs, Saved(fs, id), j)
  {
    hide Sound, SameFile, Abs, Settled, Recorded, SameContents, Flushed, Good;
    SoundValid(g, d', u, fs);
    SaveKeeps(d', g, u, u', fs, id);
    RecordedSame(d', g, table, dir, WithRecord(fs, id, Flushed(fs, id)), Saved(fs, id));
    SameContentsAfter(d, d', d', g, fs, Saved(fs, id), id);
    forall j | j in fs.records && j != id ensures SameFile(d, d', g, fs, Saved(fs, id), j) {
      SameFileTrans(d, d', d', g, fs, fs, Saved(fs, id), j);
    }
  }

  lemma SoundValid(g: Geometry, d: seq<Block>, u: set<Spot>, fs: Fs)
    requires Sound(g, d, u, fs)
    ensures g.Valid() && Good(d, g)
  {
  }

  // ---- opening --------------------------------------------------------------------------------------

  /** `FileSystem::open` once the record has been found. */
  method OpenHandle(alloc: Allocator, record: FileDetails, canRead: bool, canWrite: bool, append: bool,
                    ghost table: UpcaseMap, ghost dir: seq<nat>, ghost fs: Fs, ghost id: Name)
    returns (f: File, ghost next: Fs)
    requires alloc.Valid() && Holds(alloc.vol, table, dir, fs)
    requires id in fs.records && id !in fs.open && record == fs.records[id]
    modifies alloc.vol.Footprint() - {alloc.vol}
    ensures fresh(f) && fresh(f.touched) && f.vol == alloc.vol && f.alloc == alloc && f.Wired()
    ensures next == Opened(fs, id, HandleOf(f)) && Represents(f, next, id)
    ensures Holds(alloc.vol, table, dir, next)
    ensures forall j :: j in fs.records && j != id ==>
              SameFile(alloc.vol.flat, alloc.vol.flat, alloc.vol.g, fs, next, j)
    ensures WasOpened(alloc.vol.g, fs, next, id, canRead, canWrite, append)
  {
    hide Volume.Coherent, Volume.View, Volume.Unsaved, Geometry.Valid, Sound, SameFile, FileDirty.Valid, Abs,
         BitmapHeld, AllStore, ClustersFor, Rep, PlacedAt, OpensWell, Books, Recorded, File.HoldsClusters, Own,
         File.Owns, Held, Covered, WasOpened;
    ghost var u := alloc.vol.Unsaved();
    ViewIs(alloc.vol);
    SoundFacts(alloc.vol.g, alloc.vol.flat, u, fs, id);
    ghost var cs := fs.chains[id];
    LengthPositive(alloc.vol.g);
    var chain := GetStoredChain(alloc.vol, record, cs);
    var at := if append then record.validDataLength else 0;
    OpenPlaced(alloc.vol.View().fat, alloc.vol.g, record, cs, append, at,
               if cs == [] then 0 else alloc.vol.g.ClusterLength() - at % alloc.vol.g.ClusterLength());
    f := new File(alloc.vol, alloc, record, StartCluster(chain.value, record, append), canRead, canWrite, append,
        chain.value, cs);
    OpenKeeps(alloc.vol.flat, alloc.vol.g, u, alloc.vol.Unsaved(), fs, id, HandleOf(f));
    next := Opened(fs, id, HandleOf(f));
    RecordedSame(alloc.vol.flat, alloc.vol.g, table, dir, fs, next);
    IsOpened(alloc.vol.g, fs, id, HandleOf(f), canRead, canWrite, append);
  }

  // ---- giving clusters back -----------------------------------------------------------------------

  /** `truncate_file` to length 0: the entry set records no clusters any more, and the file's clusters
      are free. */
  method TruncateStored(alloc: Allocator, table: UpcaseMap, f: FileDetails, ghost dir: seq<nat>, ghost fs: Fs,
                        ghost id: Name) returns (r: FileDetails)
    requires alloc.Valid() && Holds(alloc.vol, table, dir, fs) && id in fs.records && id !in fs.open
    requires f == fs.records[id]
    modifies alloc.vol.Footprint()
    ensures alloc.Valid() && id in fs.chains && Holds(alloc.vol, table, dir, Emptied(fs, id))
    ensures Settled(alloc.vol.g, Emptied(fs, id), id)
    ensures r == Emptied(fs, id).records[id]
    ensures forall j :: j in fs.records && j != id ==>
              SameFile(old(alloc.vol.flat), alloc.vol.flat, alloc.vol.g, fs, Emptied(fs, id), j)
    ensures Used(alloc.vol.flat, alloc.vol.g, dir) == old(Used(alloc.vol.flat, alloc.vol.g, dir))
  {
    hide Volume.Coherent, Volume.View, Volume.Unsaved, Geometry.Valid, Sound, SameFile, FileDirty.Valid, Abs,
         AllStore, Distinct, IsDirectory, ListsAll, Entries, WellFormed, OnlyData, Settled, PlaceOf, Capacity,
         Filled, Recorded, Used, Mark, IndexAt, InOneCluster, BitmapHeld, Persisted, Rep, Freed, ClustersFor, Own,
         Covered, Upcased, IsLegal, Current, Held, ChangedDetails, WithRecord, SaysNow, Restamped, Repointed,
         HashesRight, Listing, SetInOrder;
    ghost var d, g, u := alloc.vol.flat, alloc.vol.g, alloc.vol.Unsaved();
    ViewIs(alloc.vol);
    RecordedParts(d, g, table, dir, fs);
    SoundFacts(g, d, u, fs, id);
    ghost var cs := fs.chains[id];
    ClosedPersists(g, Abs(d, g), fs, id);
    var chain := GetStoredChain(alloc.vol, f, cs);
    ghost var u1 := alloc.vol.Unsaved();
    SoundLess(g, d, u, u1, fs);
    var touched := new FileDirty(DEFAULT_TOUCHED_SECTORS, alloc.vol.g);
    ChangeEntry(alloc.vol, touched, table, f, Change(NO_CLUSTER_ID, 0, 0, None, None), dir, fs, id);
    ghost var d1 := alloc.vol.flat;
    ViewIs(alloc.vol);
    FreeChain(alloc, touched, chain.value, f.noFat, cs);
    ViewIs(alloc.vol);
    ghost var written := touched.Flush(alloc.vol);
    r := f.(firstCluster := NO_CLUSTER_ID, dataLength := 0, validDataLength := 0);
    FileEmptied(d, d1, alloc.vol.flat, g, u1, alloc.vol.Unsaved(), table, dir, fs, id);
  }

  lemma ClosedPersists(g: Geometry, v: Vol, fs: Fs, id: Name)
    requires g.Valid() && id in fs.records && id !in fs.open && id in fs.chains && FileOk(g, v, fs, id)
    ensures Persisted(v.fat, g, fs.records[id], fs.chains[id])
  {
  }

  lemma EmptiedRecord(fs: Fs, id: Name)
    requires id in fs.records && id in fs.chains
    ensures var mid := WithRecord(fs, id, ChangedDetails(fs.records[id], Change(NO_CLUSTER_ID, 0, 0, None, None)));
            && mid.records == Emptied(fs, id).records && mid.system == fs.system == Emptied(fs, id).system
  {
  }

  /** After the entry set, and then the chain, the state is that of the emptied file. */
  lemma FileEmptied(d: seq<Block>, d1: seq<Block>, d2: seq<Block>, g: Geometry, u: set<Spot>, u2: set<Spot>,
                    table: UpcaseMap, dir: seq<nat>, fs: Fs, id: Name)
    requires Good(d1, g) && Good(d2, g) && Sound(g, d1, u, fs) && u2 <= u && id in fs.records && id !in fs.open
    requires id in fs.chains
    requires Recorded(d1, g, table, dir,
             WithRecord(fs, id, ChangedDetails(fs.records[id], Change(NO_CLUSTER_ID, 0, 0, None, None))))
    requires Freed(Abs(d1, g), Abs(d2, g), fs.chains[id])
    requires forall j :: j in fs.records ==> SameFile(d, d1, g, fs, fs, j)
    requires Good(d, g) && AllStore(g, dir) && Filled(Entries(d, g, dir), Entries(d1, g, dir), 0, 0, false)
    ensures Sound(g, d2, u2, Emptied(fs, id)) && Recorded(d2, g, table, dir, Emptied(fs, id))
    ensures Settled(g, Emptied(fs, id), id)
    ensures forall j :: j in fs.records && j != id ==> SameFile(d, d2, g, fs, Emptied(fs, id), j)
    ensures Used(d2, g, dir) == Used(d, g, dir)
  {
    hide Sound, SameFile, Abs, Settled, Recorded, Good, Freed, SystemKept, Entries, AllStore, WithRecord,
         ChangedDetails, Emptied, Used, Filled;
    var mid := WithRecord(fs, id, ChangedDetails(fs.records[id], Change(NO_CLUSTER_ID, 0, 0, None, None)));
    EmptiedRecord(fs, id);
    SoundValid(g, d1, u, fs);
    EmptiedKeeps(d1, d2, g, u, u2, fs, id);
    RecordedParts(d1, g, table, dir, mid);
    DirectoryKept(d1, d2, g, table, dir, mid, Emptied(fs, id));
    forall j | j in fs.records && j != id ensures SameFile(d, d2, g, fs, Emptied(fs, id), j) {
      SameFileTrans(d, d1, d2, g, fs, fs, Emptied(fs, id), j);
    }
    NothingFilledUsed(d, d2, g, dir);
  }

  /** The first half of `delete_inner`: the clusters of the file are freed. */
  method FreeStored(alloc: Allocator, touched: FileDirty, table: UpcaseMap, f: FileDetails, ghost dir: seq<nat>,
                    ghost fs: Fs, ghost id: Name)
    requires alloc.Valid() && touched.Valid(alloc.vol.g) && Holds(alloc.vol, table, dir, fs) && id in fs.records
    requires id !in fs.open && f == fs.records[id]
    modifies alloc.vol.Footprint(), touched
    ensures alloc.Valid() && touched.Valid(alloc.vol.g) && id in fs.chains
    ensures Sound(alloc.vol.g, alloc.vol.flat, old(alloc.vol.Unsaved()), Emptied(fs, id))
    ensures Recorded(alloc.vol.flat, alloc.vol.g, table, dir, fs)
    ensures forall j :: j in fs.records && j != id ==>
              SameFile(old(alloc.vol.flat), alloc.vol.flat, alloc.vol.g, fs, Emptied(fs, id), j)
    ensures Used(alloc.vol.flat, alloc.vol.g, dir) == old(Used(alloc.vol.flat, alloc.vol.g, dir))
    ensures old(touched.inserted) <= touched.inserted
    ensures alloc.vol.Unsaved() <= old(alloc.vol.Unsaved()) + touched.inserted
  {
    hide Volume.Coherent, Volume.View, Volume.Unsaved, Geometry.Valid, Sound, SameFile, FileDirty.Valid, Abs,
         AllStore, Distinct, IsDirectory, ListsAll, Entries, WellFormed, OnlyData, Settled, PlaceOf, Capacity,
         Filled, Recorded, Used, Mark, IndexAt, InOneCluster, BitmapHeld, Persisted, Rep, Freed, ClustersFor,
         Emptied;
    ghost var d, g, u := alloc.vol.flat, alloc.vol.g, alloc.vol.Unsaved();
    ViewIs(alloc.vol);
    RecordedParts(d, g, table, dir, fs);
    SoundFacts(g, d, u, fs, id);
    ClosedPersists(g, Abs(d, g), fs, id);
    var chain := GetStoredChain(alloc.vol, f, fs.chains[id]);
    FreeChain(alloc, touched, chain.value, f.noFat, fs.chains[id]);
    ViewIs(alloc.vol);
    FreedForRemoval(d, alloc.vol.flat, g, u, table, dir, fs, id);
    SameEntriesUsed(d, alloc.vol.flat, g, dir);
  }

  /** The second half: the entry set is marked unused, and everything touched is saved. */
  method Unlist(vol: Volume, touched: FileDirty, table: UpcaseMap, f: FileDetails, ghost u: set<Spot>,
                ghost dir: seq<nat>, ghost fs: Fs, ghost id: Name)
    requires vol.Valid() && touched.Valid(vol.g) && id in fs.records && id !in fs.open && id in fs.chains
    requires f == fs.records[id]
    requires Sound(vol.g, vol.flat, u, Emptied(fs, id)) && Recorded(vol.flat, vol.g, table, dir, fs)
    requires vol.Unsaved() <= u + touched.inserted
    modifies vol.Footprint(), touched
    ensures Holds(vol, table, dir, Forget(Emptied(fs, id), id))
    ensures forall j :: j in fs.records && j != id ==>
              SameFile(old(vol.flat), vol.flat, vol.g, Emptied(fs, id), Forget(Emptied(fs, id), id), j)
    ensures Used(vol.flat, vol.g, dir)
            == Mark(old(Used(vol.flat, vol.g, dir)), IndexAt(vol.g, dir, f.location), f.secondaryCount + 1, false)
  {
    hide Volume.Coherent, Volume.View, Volume.Unsaved, Geometry.Valid, Sound, SameFile, FileDirty.Valid, Abs,
         AllStore, Distinct, IsDirectory, ListsAll, Entries, WellFormed, OnlyData, Settled, PlaceOf, Capacity,
         Filled, Recorded, Used, Mark, IndexAt, InOneCluster, SetHere, Emptied, Forget, Lists, Listing, Good,
         Touched.Ordered, Upcased, IsLegal, HashesRight;
    ghost var d, g := vol.flat, vol.g;
    ViewIs(vol);
    RecordedParts(d, g, table, dir, fs);
    ghost var k := EntryHere(d, g, table, dir, fs, id);
    MarkSetUnused(vol, touched, f.location, f.secondaryCount + 1, dir, k);
    ViewIs(vol);
    ghost var written := touched.Flush(vol);
    FileRemoved(d, vol.flat, g, u, vol.Unsaved(), table, dir, fs, id, k);
    UnusedFilled(Entries(d, g, dir), EntriesOf(vol, dir), k, f.secondaryCount + 1);
    FilledUsed(d, vol.flat, g, dir, k, f.secondaryCount + 1, false);
    IndexAtPlace(g, dir, k);
  }

  /** `delete_inner` on a file: its clusters are free, and its entry set is unused. */
  method RemoveStored(alloc: Allocator, table: UpcaseMap, f: FileDetails, ghost dir: seq<nat>, ghost fs: Fs,
                      ghost id: Name)
    requires alloc.Valid() && Holds(alloc.vol, table, dir, fs) && id in fs.records && id !in fs.open
    requires f == fs.records[id]
    modifies alloc.vol.Footprint()
    ensures alloc.Valid() && id in fs.chains && Holds(alloc.vol, table, dir, Forget(Emptied(fs, id), id))
    ensures forall j :: j in fs.records && j != id ==>
              SameFile(old(alloc.vol.flat), alloc.vol.flat, alloc.vol.g, fs, Forget(Emptied(fs, id), id), j)
    ensures Used(alloc.vol.flat, alloc.vol.g, dir)
            == Mark(old(Used(alloc.vol.flat, alloc.vol.g, dir)), IndexAt(alloc.vol.g, dir, f.location),
                f.secondaryCount + 1, false)
  {
    hide Volume.Coherent, Volume.View, Volume.Unsaved, Geometry.Valid, Sound, SameFile, FileDirty.Valid, Abs,
         AllStore, Distinct, IsDirectory, ListsAll, Entries, WellFormed, OnlyData, Settled, PlaceOf, Capacity,
         Filled, Recorded, Used, Mark, IndexAt, InOneCluster, Emptied, Forget;
    ghost var d, g, u := alloc.vol.flat, alloc.vol.g, alloc.vol.Unsaved();
    var touched := new FileDirty(DEFAULT_TOUCHED_SECTORS, alloc.vol.g);
    FreeStored(alloc, touched, table, f, dir, fs, id);
    ghost var d1 := alloc.vol.flat;
    Unlist(alloc.vol, touched, table, f, u, dir, fs, id);
    forall j | j in fs.records && j != id ensures SameFile(d, alloc.vol.flat, g, fs, Forget(Emptied(fs, id), id), j) {
      SameFileTrans(d, d1, alloc.vol.flat, g, fs, Emptied(fs, id), Forget(Emptied(fs, id), id), j);
    }
  }

  lemma UnusedFilled(es: seq<RawEntry>, es': seq<RawEntry>, k: nat, n: nat)
    requires ChangedWithin(es, es', k, n) && forall i :: k <= i < k + n ==> !InUse(es'[i])
    ensures Filled(es, es', k, n, false)
  {
    hide InUse;
  }

  lemma FreedForRemoval(d: seq<Block>, d1: seq<Block>, g: Geometry, u: set<Spot>, table: UpcaseMap, dir: seq<nat>,
                        fs: Fs, id: Name)
    requires Good(d1, g) && Sound(g, d, u, fs) && Recorded(d, g, table, dir, fs) && id in fs.records && id !in fs.open
    requires id in fs.chains
    requires Freed(Abs(d, g), Abs(d1, g), fs.chains[id])
    ensures Sound(g, d1, u, Emptied(fs, id)) && Recorded(d1, g, table, dir, fs)
    ensures forall j :: j in fs.records && j != id ==> SameFile(d, d1, g, fs, Emptied(fs, id), j)
    ensures AllStore(g, dir) && Entries(d1, g, dir) == Entries(d, g, dir)
  {
    hide Sound, SameFile, Abs, Settled, Recorded, Good, Freed, SystemKept, Entries, AllStore;
    SoundValid(g, d, u, fs);
    RecordedParts(d, g, table, dir, fs);
    EmptiedKeeps(d, d1, g, u, u, fs, id);
    DirectoryKept(d, d1, g, table, dir, fs, fs);
  }

  lemma FileRemoved(d: seq<Block>, d': seq<Block>, g: Geometry, u: set<Spot>, u': set<Spot>, table: UpcaseMap,
                    dir: seq<nat>, fs: Fs, id: Name, k: nat)
    requires id in fs.records && id !in fs.open && id in fs.chains
    requires Sound(g, d, u, Emptied(fs, id)) && Recorded(d, g, table, dir, fs) && AllStore(g, dir) && Good(d', g)
    requires u' <= u
    requires OnlyData(Abs(d, g), Abs(d', g), dir)
    requires WellFormed(Entries(d, g, dir)) && Lists(table, Listing(Entries(d, g, dir)), k, id)
    requires WellFormed(Entries(d', g, dir)) && Listing(Entries(d', g, dir)) == Listing(Entries(d, g, dir)) - {k}
    ensures Sound(g, d', u', Forget(Emptied(fs, id), id)) && Recorded(d', g, table, dir, Forget(Emptied(fs, id), id))
    ensures forall j :: j in fs.records && j != id ==>
              SameFile(d, d', g, Emptied(fs, id), Forget(Emptied(fs, id), id), j)
  {
    hide Sound, SameFile, Abs, Settled, Recorded, Good, OnlyData, Entries, AllStore, WellFormed, ListsAll, Lists,
         IsDirectory;
    var gone := Forget(Emptied(fs, id), id);
    SoundValid(g, d, u, Emptied(fs, id));
    RecordedParts(d, g, table, dir, fs);
    DirWritten(d, d', g, u, u', Emptied(fs, id), dir);
    ForgetKeeps(d', g, u', Emptied(fs, id), id);
    DropListed(g, table, dir, Listing(Entries(d, g, dir)), fs.records, k, id);
    assert gone.records == fs.records - {id};
    RecordedIs(d, g, table, dir, fs, gone, d');
    forall j | j in fs.records && j != id ensures SameFile(d, d', g, Emptied(fs, id), gone, j) {
      SameFileTrans(d, d', d', g, Emptied(fs, id), Emptied(fs, id), gone, j);
    }
  }

  // ---- entries in use ---------------------------------------------------------------------------------

  lemma FilledUsed(d: seq<Block>, d': seq<Block>, g: Geometry, dir: seq<nat>, k: nat, n: nat, on: bool)
    requires g.Valid() && Good(d, g) && Good(d', g) && AllStore(g, dir)
    requires Filled(Entries(d, g, dir), Entries(d', g, dir), k, n, on)
    ensures Used(d', g, dir) == Mark(Used(d, g, dir), k, n, on)
  {
    hide Entries, InUse, Capacity;
    UsedMarked(d, d', g, dir, k, n, on);
  }

  lemma NothingFilledUsed(d: seq<Block>, d': seq<Block>, g: Geometry, dir: seq<nat>)
    requires g.Valid() && Good(d, g) && Good(d', g) && AllStore(g, dir)
    requires Filled(Entries(d, g, dir), Entries(d', g, dir), 0, 0, false)
    ensures Used(d', g, dir) == Used(d, g, dir)
  {
    hide Entries, InUse, Capacity, Used;
    FilledUsed(d, d', g, dir, 0, 0, false);
    MarkNothing(Used(d, g, dir));
  }

  lemma SameEntriesUsed(d: seq<Block>, d': seq<Block>, g: Geometry, dir: seq<nat>)
    requires g.Valid() && Good(d, g) && Good(d', g) && AllStore(g, dir) && Entries(d', g, dir) == Entries(d, g, dir)
    ensures Used(d', g, dir) == Used(d, g, dir)
  {
    hide Entries, InUse, Capacity;
  }
}
