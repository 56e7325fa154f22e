/** The file system over its volume: one directory and its files. Every operation keeps the state of
    all files sound, and the directory on the disk in agreement with it
    (src/file_system.rs:186-242, 301-308, 483-579, 870-887; src/file.rs). */
module FileSystem {
  import opened Allocator
  import opened Bytes
  import opened Chains
  import opened ChainStore
  import opened DirEntry
  import opened Directory
  import opened DirPlace
  import opened DirReader
  import opened DirState
  import opened DirWriter
  import opened Disk
  import opened EntrySet
  import opened File
  import opened FileData
  import opened FileOps
  import opened FsState
  import opened Names
  import opened Results
  import opened Spots
  import opened Touched
  import opened Volume

  /** An open file object on this volume, in the state `h` and with the clusters `cs`. */
  ghost predicate Shows(vol: Volume, alloc: Allocator, f: File, h: Handle, cs: seq<nat>)
    requires vol.g.Valid()
    reads f, f.touched
  {
    f.vol == vol && f.alloc == alloc && f.touched.Valid(vol.g) && f.cs == cs && h == HandleOf(f)
  }

  /** Different open files have nothing in common. */
  ghost predicate HandlesApart(hs: map<Name, File>) {
    forall a, b :: a in hs && b in hs && a != b ==> hs[a] != hs[b] && hs[a].touched != hs[b].touched
  }

  ghost function ObjectsOf(hs: map<Name, File>): set<object> {
    (set id | id in hs :: hs[id] as object) + (set id | id in hs :: hs[id].touched as object)
  }

  lemma ObjectsPlus(hs: map<Name, File>, id: Name, f: File)
    ensures ObjectsOf(hs[id := f]) <= ObjectsOf(hs) + {f, f.touched}
  {
  }

  ghost function OtherObjects(hs: map<Name, File>, id: Name): set<object> {
    (set j | j in hs && j != id :: hs[j] as object) + (set j | j in hs && j != id :: hs[j].touched as object)
  }

  /** Every open file but `id` is what the state `st` says it is. */
  ghost predicate Others(vol: Volume, alloc: Allocator, hs: map<Name, File>, st: Fs, id: Name)
    requires vol.g.Valid()
    reads OtherObjects(hs, id)
  {
    && HandlesApart(hs)
    && forall j :: j in hs && j != id ==>
          && j in st.open && j in st.chains
          && Shows(vol, alloc, hs[j], st.open[j], st.chains[j])
  }

  lemma OthersStepped(vol: Volume, alloc: Allocator, hs: map<Name, File>, st: Fs, st': Fs, id: Name)
    requires vol.g.Valid() && Others(vol, alloc, hs, st, id)
    requires forall j :: j in st.open && j in st.chains && j != id ==>
               j in st'.open && j in st'.chains && st'.open[j] == st.open[j] && st'.chains[j] == st.chains[j]
    ensures Others(vol, alloc, hs, st', id)
  {
    hide Shows;
  }

  lemma OthersPlus(vol: Volume, alloc: Allocator, hs: map<Name, File>, st: Fs, id: Name, f: File)
    requires vol.g.Valid() && id !in hs && Others(vol, alloc, hs, st, id)
    requires (f as object) !in OtherObjects(hs, id) && (f.touched as object) !in OtherObjects(hs, id)
    ensures Others(vol, alloc, hs[id := f], st, id)
  {
    hide Shows;
    forall j | j in hs ensures hs[j] != f && hs[j].touched != f.touched {
      assert (hs[j] as object) in OtherObjects(hs, id) && (hs[j].touched as object) in OtherObjects(hs, id);
    }
  }

  lemma OthersMinus(vol: Volume, alloc: Allocator, hs: map<Name, File>, st: Fs, id: Name)
    requires vol.g.Valid() && Others(vol, alloc, hs, st, id)
    ensures Others(vol, alloc, hs - {id}, st, id)
  {
    hide Shows;
  }

  class FileSystem {
    const vol: Volume
    const alloc: Allocator
    const table: UpcaseMap
    const root: nat
    var handles: map<Name, File>  // the open files, by their up-cased names
    ghost const dir: seq<nat>     // the clusters of the directory
    ghost var fs: Fs

    ghost function HandleObjects(): set<object>
      reads this
    {
      ObjectsOf(handles)
    }

    ghost function Footprint(): set<object>
      reads this
    {
      vol.Footprint() + {this, alloc} + HandleObjects()
    }

    /** The objects are in order and show the state `fs`. */
    ghost predicate Wired()
      reads this, Footprint()
    {
      && alloc.vol == vol && alloc.Valid() && HandlesApart(handles) && dir != [] && root == dir[0]
      && fs.open.Keys == handles.Keys
      && (forall id :: id in handles ==> id in fs.chains && Shows(vol, alloc, handles[id], fs.open[id], fs.chains[id]))
    }

    /** The invariant of every operation, whatever its outcome. */
    ghost predicate Valid()
      reads this, Footprint()
    {
      Wired() && Holds(vol, table, dir, fs)
    }

    /** Mounting a volume with everything saved and no file open. */
    constructor (vol: Volume, alloc: Allocator, table: UpcaseMap, root: nat, ghost dir: seq<nat>, ghost fs: Fs)
      requires alloc.vol == vol && alloc.Valid() && dir != [] && root == dir[0] && fs.open == map[]
      requires Holds(vol, table, dir, fs)
      ensures Valid() && this.vol == vol && this.alloc == alloc && this.table == table && this.dir == dir
      ensures this.fs == fs && handles == map[]
    {
      this.vol := vol;
      this.alloc := alloc;
      this.table := table;
      this.root := root;
      this.dir := dir;
      this.fs := fs;
      handles := map[];
    }

    /** An open file is ready for use. */
    lemma Ready(id: Name)
      requires Valid() && id in handles
      ensures var f := handles[id];
              && id in fs.records && id in fs.chains && id in fs.open
              && f.vol == vol && f.alloc == alloc && f.cs == fs.chains[id] && HandleOf(f) == fs.open[id]
              && Represents(f, fs, id)
              && f.Wired() && f.Owns()
              && (Settled(vol.g, fs, id) ==> f.Placed() && f.Sized() && f.cursor <= f.details.dataLength)
    {
      hide Volume.Coherent, Volume.View, Volume.Unsaved, Geometry.Valid, Held, PlacedAt, ClustersFor, FileDirty.Valid,
           Books, BitmapHeld, Abs, Recorded;
      ViewIs(vol);
      SoundFacts(vol.g, vol.flat, vol.Unsaved(), fs, id);
    }

    /** Working on one file does not reach the objects of the other open files. */
    lemma OutOfReach(id: Name) returns (others: set<object>)
      requires Wired()
      ensures others == OtherObjects(handles, id)
      ensures alloc.vol == vol && alloc.Valid() && vol.g.Valid() && dir != [] && root == dir[0]
      ensures Others(vol, alloc, handles, fs, id) && fs.open.Keys == handles.Keys
      ensures id in handles ==>
                handles[id] !in OtherObjects(handles, id) && handles[id].touched !in OtherObjects(handles, id)
      ensures (alloc as object) !in OtherObjects(handles, id) && vol.Footprint() !! OtherObjects(handles, id)
      ensures (this as object) !in vol.Footprint() && (this as object) !in OtherObjects(handles, id)
    {
      hide Volume.Coherent, Shows, Geometry.Valid, Good;
      others := OtherObjects(handles, id);
    }

    /** Once the state has caught up with the handle the objects are in order again. */
    lemma Rewired(id: Name)
      requires alloc.vol == vol && alloc.Valid() && dir != [] && root == dir[0]
      requires id in handles ==>
                 handles[id].Wired() && handles[id].vol == vol && handles[id].alloc == alloc
                     && Represents(handles[id], fs, id)
      requires Others(vol, alloc, handles, fs, id) && fs.open.Keys == handles.Keys
      ensures Wired()
    {
      hide Volume.Coherent, HandleOf, FileDirty.Valid;
    }

    /** The directory, as the operations need it. */
    lemma DirectoryFacts()
      requires Valid()
      ensures vol.g.Valid() && Good(vol.flat, vol.g) && AllStore(vol.g, dir)
      ensures Sound(vol.g, vol.flat, vol.Unsaved(), fs) && Recorded(vol.flat, vol.g, table, dir, fs)
    {
      hide Volume.Coherent, Volume.View, Volume.Unsaved, Geometry.Valid, Recorded, Good, Books, FileOk, Covered;
      RecordedParts(vol.flat, vol.g, table, dir, fs);
    }

    /** Writing to an open file writes into that file's contents and into no other's. */
    method Write(id: Name, buf: seq<byte>) returns (r: Result<()>)
      requires Valid() && id in handles && Settled(vol.g, fs, id)
      modifies this`fs, handles[id], handles[id].touched, alloc, vol.Footprint()
      ensures Valid() && handles == old(handles)
      ensures forall j :: j in old(fs).records && j != id ==> SameFile(old(vol.flat), vol.flat, vol.g, old(fs), fs, j)
      ensures r == Outcome(vol.g, old(vol.flat), old(fs), id, |buf|)
      ensures r.Ok? || r == Err(WriteNotEnabled) ==>
                Written(old(vol.flat), vol.flat, vol.g, old(fs), fs, id, if r.Ok? then buf else [])
      ensures OnlyStepped(old(fs), fs, id) && Used(vol.flat, vol.g, dir) == old(Used(vol.flat, vol.g, dir))
    {
      hide HandleObjects, Footprint, OtherObjects, Volume.Coherent, Volume.View, Volume.Unsaved, Geometry.Valid,
           Sound, SameFile, Shows, HandleOf, Settled, Wired, FileDirty.Valid, Others, Represents, Good, Recorded,
           Used, Entries, AllStore, Outcome, Written, File.Owns, File.Placed, File.Sized, OnlyStepped;
      Ready(id);
      ghost var others := OutOfReach(id);
      DirectoryFacts();
      ghost var d := vol.flat;
      ghost var next;
      r, next := WriteHandle(handles[id], buf, table, dir, fs, id);
      SteppedSame(fs, next, id);
      OthersStepped(vol, alloc, handles, fs, next, id);
      fs := next;
      Rewired(id);
      SameEntriesUsed(d, vol.flat, vol.g, dir);
    }

    /** Reading from an open file. */
    method Read(id: Name, n: nat) returns (r: Result<Option<seq<byte>>>)
      requires Valid() && id in handles && Settled(vol.g, fs, id)
      modifies this`fs, handles[id], vol.Footprint()
      ensures vol.flat == old(vol.flat)
      ensures Valid() && handles == old(handles)
      ensures forall j :: j in old(fs).records && j != id ==> SameFile(vol.flat, vol.flat, vol.g, old(fs), fs, j)
      ensures WasRead(vol.flat, vol.g, old(fs), fs, id, n, r) && OnlyStepped(old(fs), fs, id)
    {
      hide HandleObjects, Footprint, OtherObjects, Volume.Coherent, Volume.View, Volume.Unsaved, Geometry.Valid,
           Sound, SameFile, Shows, HandleOf, Settled, Wired, FileDirty.Valid, Others, Represents, Good, Recorded,
           Used, Entries, AllStore, WasRead, File.Owns, File.Placed, File.Sized;
      Ready(id);
      ghost var others := OutOfReach(id);
      ghost var next;
      r, next := ReadHandle(handles[id], n, fs, id);
      SteppedSame(fs, next, id);
      OthersStepped(vol, alloc, handles, fs, next, id);
      RecordedSame(vol.flat, vol.g, table, dir, fs, next);
      fs := next;
      Rewired(id);
    }

    /** Moving the cursor of an open file. */
    method Seek(id: Name, pos: nat) returns (r: Result<()>)
      requires Valid() && id in handles && Settled(vol.g, fs, id)
      modifies this`fs, handles[id], vol.Footprint()
      ensures vol.flat == old(vol.flat)
      ensures Valid() && handles == old(handles)
      ensures forall j :: j in old(fs).records && j != id ==> SameFile(vol.flat, vol.flat, vol.g, old(fs), fs, j)
      ensures WasSought(vol.flat, vol.g, old(fs), fs, id, pos, r) && OnlyStepped(old(fs), fs, id)
    {
      hide HandleObjects, Footprint, OtherObjects, Volume.Coherent, Volume.View, Volume.Unsaved, Geometry.Valid,
           Sound, SameFile, Shows, HandleOf, Settled, Wired, FileDirty.Valid, Others, Represents, Good, Recorded,
           Used, Entries, AllStore, WasSought, File.Owns, File.Placed, File.Sized;
      Ready(id);
      ghost var others := OutOfReach(id);
      ghost var next;
      r, next := SeekHandle(handles[id], pos, fs, id);
      SteppedSame(fs, next, id);
      OthersStepped(vol, alloc, handles, fs, next, id);
      RecordedSame(vol.flat, vol.g, table, dir, fs, next);
      fs := next;
      Rewired(id);
    }

    /** The device alone, without any cache, lists all files, and leads to the contents of file `id`. */
    ghost predicate OnDevice(id: Name)
      reads this, Footprint()
    {
      && vol.g.Valid() && Good(vol.flat, vol.g) && Settled(vol.g, fs, id) && AllStore(vol.g, fs.chains[id])
      && Recorded(vol.dev.blocks, vol.g, table, dir, fs)
      && StoredAlone(vol.dev.blocks, vol.g, fs, id, ContentsOf(vol.flat, vol.g, fs, id))
    }

    /** Between operations the directory on the device is up to date, and so is every file that is closed or
        has been flushed since its last change, whatever other files are open and unsaved. */
    lemma CleanOnDevice(id: Name)
      requires Valid() && id in fs.records && Clean(fs, id) && Settled(vol.g, fs, id)
      ensures OnDevice(id)
    {
      hide Volume.Coherent, Volume.View, Geometry.Valid, Good, Sound, Shows, Settled, AllStore, Recorded,
           StoredAlone, SystemKept, Abs, Behind, Clean, ContentsOf;
      var others := OutOfReach(id);
      SoundFacts(vol.g, vol.flat, vol.Unsaved(), fs, id);
      SystemStored(vol.g, vol.flat, vol.dev.blocks, fs);
      DirectoryKept(vol.flat, vol.dev.blocks, vol.g, table, dir, fs, fs);
      CleanStored(vol.g, vol.flat, vol.dev.blocks, fs, id);
    }

    /** The entries of the directory. */
    ghost function DirEntries(): seq<RawEntry>
      reads this, Footprint()
    {
      if vol.g.Valid() && Good(vol.flat, vol.g) && AllStore(vol.g, dir) then EntriesOf(vol, dir) else []
    }

    /** `File::flush`: rewrites the entry set if need be and saves everything the file wrote. Its contents
        stay as they were, and are on the device. */
    method Flush(id: Name, t: Stamp)
      requires Valid() && id in handles && Settled(vol.g, fs, id)
      modifies this`fs, handles[id].touched, vol.Footprint()
      ensures Valid() && handles == old(handles) && id in old(fs).open && id in old(fs).records
      ensures fs == Saved(old(fs), id)
      ensures forall j :: j in old(fs).records && j != id ==> SameFile(old(vol.flat), vol.flat, vol.g, old(fs), fs, j)
      ensures Settled(vol.g, fs, id) && SameContents(old(vol.flat), vol.flat, vol.g, old(fs), fs, id)
      ensures vol.Unsaved() <= old(vol.Unsaved()) - old(handles[id].touched.inserted) && Clean(fs, id) && OnDevice(id)
      ensures Used(vol.flat, vol.g, dir) == old(Used(vol.flat, vol.g, dir))
      ensures var h := old(fs).open[id];
              EntryFlushed(old(DirEntries()), DirEntries(), IndexAt(vol.g, dir, h.details.location), h.details,
                           handles[id].cs, h.dirty, t)
    {
      hide HandleObjects, Footprint, OtherObjects, Volume.Coherent, Volume.View, Volume.Unsaved, Geometry.Valid,
           Sound, SameFile, Shows, HandleOf, Settled, Wired, FileDirty.Valid, Others, Represents, Good, Recorded,
           Used, Entries, AllStore, SameContents, Flushed, File.Owns, File.Placed, File.Sized, Filled, OnDevice,
           EntryFlushed, IndexAt;
      Ready(id);
      ghost var others := OutOfReach(id);
      DirectoryFacts();
      ghost var d := vol.flat;
      HandleParts(handles[id], fs, id);
      FlushHandle(handles[id], table, t, dir, fs, id);
      ghost var next := Saved(fs, id);
      OthersStepped(vol, alloc, handles, fs, next, id);
      fs := next;
      Rewired(id);
      CleanOnDevice(id);
    }

    /** The last step of `close`: the handle of a flushed file is dropped. */
    method Drop(id: Name)
      requires Valid() && id in handles && Settled(vol.g, fs, id) && !fs.open[id].dirty && fs.open[id].inserted == {}
      modifies this`handles, this`fs
      ensures Valid() && handles == old(handles) - {id} && id in old(fs).open && id in old(fs).records
      ensures fs == Closed(old(fs), id)
      ensures forall j :: j in old(fs).records && j != id ==> SameFile(vol.flat, vol.flat, vol.g, old(fs), fs, j)
      ensures Settled(vol.g, fs, id) && SameContents(vol.flat, vol.flat, vol.g, old(fs), fs, id)
    {
      hide HandleObjects, Footprint, OtherObjects, Volume.Coherent, Volume.View, Volume.Unsaved, Geometry.Valid,
           Sound, SameFile, Shows, HandleOf, Settled, Wired, FileDirty.Valid, Others, Represents, Good, Recorded,
           Used, Entries, AllStore, SameContents, Flushed, OnDevice, Clean;
      Ready(id);
      ghost var others := OutOfReach(id);
      DirectoryFacts();
      ghost var next := Closed(fs, id);
      CloseKeeps(vol.flat, vol.g, vol.Unsaved(), vol.Unsaved(), fs, id);
      CleanRecords(fs, id);
      RecordedSame(vol.flat, vol.g, table, dir, fs, next);
      OthersStepped(vol, alloc, handles, fs, next, id);
      handles := handles - {id};
      fs := next;
      OthersMinus(vol, alloc, old(handles), next, id);
      Rewired(id);
    }

    /** What the directory on the disk says of the file with this name, in whatever case it is given. */
    ghost predicate Listed(name: seq<u16>, r: Option<FileDetails>)
      reads this, Footprint()
    {
      && vol.g.Valid() && Good(vol.flat, vol.g) && AllStore(vol.g, dir)
      && FoundBy(vol.g, EntriesOf(vol, dir), table, dir, name, r)
    }

    /** `find_file_inner` for a name in this directory. */
    method Find(name: seq<u16>) returns (r: Result<Option<FileDetails>>)
      requires Valid()
      modifies vol.Footprint() - {vol}
      ensures Valid()
      ensures r == if name == [] then Ok(None)
                   else if !IsLegal(name) then Err(InvalidFileName)
                   else if Upcased(table, name) in fs.records then Ok(Some(fs.records[Upcased(table, name)]))
                   else Ok(None)
      ensures r.Ok? ==> Listed(name, r.value)
    {
      hide HandleObjects, Footprint, OtherObjects, Volume.Coherent, Volume.View, Volume.Unsaved, Geometry.Valid,
           Sound, SameFile, Shows, HandleOf, Settled, Wired, FileDirty.Valid, Others, Represents, Good, Recorded,
           Used, Entries, AllStore, Upcased, IsLegal, Holds, OnDevice, Clean, File.Owns, File.Placed, File.Sized,
           FoundBy;
      ghost var id := Upcased(table, name);
      if id in handles { Ready(id); }
      ghost var others := OutOfReach(id);
      r := FindEntry(vol, table, root, name, dir, fs);
      Rewired(id);
    }

    /** `close`: flushes the file and drops its handle. */
    method Close(id: Name, t: Stamp)
      requires Valid() && id in handles && Settled(vol.g, fs, id)
      modifies this`handles, this`fs, handles[id].touched, vol.Footprint()
      ensures Valid() && handles == old(handles) - {id} && id in old(fs).open && id in old(fs).records
      ensures fs == Closed(old(fs), id)
      ensures forall j :: j in old(fs).records && j != id ==> SameFile(old(vol.flat), vol.flat, vol.g, old(fs), fs, j)
      ensures Settled(vol.g, fs, id) && SameContents(old(vol.flat), vol.flat, vol.g, old(fs), fs, id)
      ensures vol.Unsaved() <= old(vol.Unsaved()) - old(handles[id].touched.inserted) && OnDevice(id)
      ensures Used(vol.flat, vol.g, dir) == old(Used(vol.flat, vol.g, dir))
    {
      hide Volume.Coherent, Volume.View, Volume.Unsaved, Geometry.Valid, Sound, SameFile, Shows, HandleOf, Settled,
           Wired, FileDirty.Valid, Others, Represents, Good, Recorded, Used, Entries, AllStore, SameContents, Flushed,
           Holds, OnDevice, DirEntries, EntryFlushed, IndexAt;
      ghost var d, was := vol.flat, fs;
      Flush(id, t);
      ghost var d1, mid := vol.flat, fs;
      Drop(id);
      ClosedAfterSaved(was, id);
      CleanOnDevice(id);
      SameContentsTrans(d, d1, vol.flat, vol.g, was, mid, fs, id);
      forall j | j in was.records && j != id ensures SameFile(d, vol.flat, vol.g, was, fs, j) {
        SameFileTrans(d, d1, vol.flat, vol.g, was, mid, fs, j);
      }
    }

    /** `create_file`. */
    method Create(name: seq<u16>, t: Stamp) returns (r: Result<FileDetails>, ghost k: nat)
      requires Valid() && |name| <= 255 && Upcased(table, name) !in fs.records && RoomFor(name)
      modifies this`fs, vol.Footprint()
      ensures Valid() && handles == old(handles)
      ensures r.Ok? <==> IsLegal(name) && old(HasFree(SetLength(|name|)))
      ensures r.Err? ==>
                r.error == (if IsLegal(name) then DirectoryFull else InvalidFileName) && vol.flat == old(vol.flat)
                    && fs == old(fs)
      ensures r.Ok? ==>
                && fs == Created(old(fs), Upcased(table, name), r.value) && IsEmpty(r.value)
                    && Settled(vol.g, fs, Upcased(table, name))
                && r.value.secondaryCount + 1 == SetLength(|name|)
                && (forall j :: j in old(fs).records ==> SameFile(old(vol.flat), vol.flat, vol.g, old(fs), fs, j))
                && old(FitsAt(k, SetLength(|name|))) && PlacedIn(k, r.value.location)
                && Used(vol.flat, vol.g, dir) == Mark(old(Used(vol.flat, vol.g, dir)), k, SetLength(|name|), true)
    {
      hide HandleObjects, Footprint, OtherObjects, Volume.Coherent, Volume.View, Volume.Unsaved, Geometry.Valid,
           Sound, SameFile, Shows, HandleOf, Settled, Wired, FileDirty.Valid, Others, Represents, Good, Recorded,
           Used, Entries, AllStore, Upcased, IsLegal, Filled, PlaceOf, Capacity, FirstFit, SomewhereFree, HasRoom,
           Mark, Distinct, IsDirectory, ListsAll, Holds, OnDevice, Clean;
      ghost var id := Upcased(table, name);
      ghost var others := OutOfReach(id);
      DirectoryFacts();
      RecordedParts(vol.flat, vol.g, table, dir, fs);
      NotKnown(vol.g, vol.flat, vol.Unsaved(), fs, id);
      ghost var d := vol.flat;
      r, k := CreateEntry(vol, table, root, name, t, dir, fs);
      if r.Ok? {
        ghost var next := Created(fs, id, r.value);
        OthersStepped(vol, alloc, handles, fs, next, id);
        fs := next;
      }
      Rewired(id);
    }

    /** What the caller of `Create` must see to: the search will not come back with too short a run, or
        one that crosses a cluster boundary. */
    ghost predicate RoomFor(name: seq<u16>)
      reads this, Footprint()
    {
      vol.g.Valid() && Good(vol.flat, vol.g) && AllStore(vol.g, dir)
      && (IsLegal(name) ==> HasRoom(vol.g, EntriesOf(vol, dir), dir, SetLength(|name|)))
    }

    ghost predicate HasFree(n: nat)
      reads this, Footprint()
    {
      vol.g.Valid() && Good(vol.flat, vol.g) && AllStore(vol.g, dir) && SomewhereFree(EntriesOf(vol, dir), n)
    }

    ghost predicate PlacedIn(k: nat, loc: Location) {
      vol.g.Valid() && AllStore(vol.g, dir) && k < Capacity(vol.g, dir) && loc == PlaceOf(vol.g, dir, k)
    }

    ghost predicate FitsAt(k: nat, n: nat)
      reads this, Footprint()
    {
      vol.g.Valid() && Good(vol.flat, vol.g) && AllStore(vol.g, dir) && FirstFit(EntriesOf(vol, dir), k, n)
    }

    /** The last part of `open`: a handle for a file that was found or made. */
    method OpenFound(id: Name, record: FileDetails, canRead: bool, canWrite: bool, append: bool)
      requires Valid() && id in fs.records && id !in handles && record == fs.records[id]
      modifies this`handles, this`fs, vol.Footprint()
      ensures vol.flat == old(vol.flat)
      ensures Valid() && id in handles && handles == old(handles)[id := handles[id]]
      ensures fresh(handles[id]) && fresh(handles[id].touched)
      ensures forall j :: j in old(fs).records && j != id ==> SameFile(vol.flat, vol.flat, vol.g, old(fs), fs, j)
      ensures WasOpened(vol.g, old(fs), fs, id, canRead, canWrite, append)
    {
      hide HandleObjects, Footprint, OtherObjects, Volume.Coherent, Volume.View, Volume.Unsaved, Geometry.Valid,
           Sound, SameFile, Shows, HandleOf, Settled, Wired, FileDirty.Valid, Others, Represents, Good, Recorded,
           Used, Entries, AllStore, WasOpened, Holds, OnDevice, Clean;
      ghost var others := OutOfReach(id);
      ghost var next;
      var f;
      f, next := OpenHandle(alloc, record, canRead, canWrite, append, table, dir, fs, id);
      OthersStepped(vol, alloc, handles, fs, next, id);
      handles := handles[id := f];
      fs := next;
      OthersPlus(vol, alloc, old(handles), next, id, f);
      Rewired(id);
    }

    /** Closing a file and opening it again from what the disk records: whatever shape its chain was held
        in, the same clusters, lengths, flag and contents come back. */
    method Reopen(id: Name, name: seq<u16>, t: Stamp, canRead: bool, canWrite: bool)
      requires Valid() && id in handles && Settled(vol.g, fs, id) && IsLegal(name) && id == Upcased(table, name)
      modifies this`handles, this`fs, handles[id].touched, vol.Footprint()
      ensures Valid() && id in handles && fresh(handles[id]) && fresh(handles[id].touched)
      ensures CameBack(vol.g, old(fs), fs, id) && SameContents(old(vol.flat), vol.flat, vol.g, old(fs), fs, id)
      ensures forall j :: j in old(fs).records && j != id ==> SameFile(old(vol.flat), vol.flat, vol.g, old(fs), fs, j)
    {
      hide Volume.Coherent, Volume.View, Volume.Unsaved, Geometry.Valid, Sound, SameFile, Shows, HandleOf, Settled,
           Wired, FileDirty.Valid, Others, Represents, Good, Recorded, Used, Entries, AllStore, SameContents, Flushed,
           IsLegal, Upcased, WasOpened, CameBack, Current, Rep, Abs,
           Holds, OnDevice, Clean, DirEntries, Listed, EntryFlushed, IndexAt;
      OpenShape(id);
      ghost var d, was, fat := vol.flat, fs, Abs(vol.flat, vol.g).fat;
      Close(id, t);
      ghost var d1, mid := vol.flat, fs;
      LegalNotEmpty(name);
      var found := Find(name);
      OpenFound(id, found.value.value, canRead, canWrite, false);
      ClosedComesBack(fat, vol.g, was, fs, id, canRead, canWrite);
      OpenedContents(d, vol.flat, vol.g, was, mid, fs, id, canRead, canWrite);
      forall j | j in was.records && j != id ensures SameFile(d, vol.flat, vol.g, was, fs, j) {
        SameFileTrans(d, d1, vol.flat, vol.g, was, mid, fs, j);
      }
    }

    lemma OpenShape(id: Name)
      requires Valid() && id in handles
      ensures vol.g.Valid() && Good(vol.flat, vol.g) && id in fs.open && id in fs.records && id in fs.chains
      ensures Rep(Abs(vol.flat, vol.g).fat, fs.open[id].chain, fs.open[id].details.noFat, fs.chains[id])
      ensures Current(vol.g, fs.records[id], fs.open[id].details, fs.open[id].dirty, fs.chains[id])
    {
      hide Volume.Coherent, Volume.View, Volume.Unsaved, Geometry.Valid, Good, Rep, Current, Recorded, Books, Covered,
           Abs, Shows;
      assert id in fs.open && FileOk(vol.g, Abs(vol.flat, vol.g), fs, id);
    }

    /** `truncate_file` to nothing. */
    method TruncateFound(id: Name, record: FileDetails) returns (r: FileDetails)
      requires Valid() && id in fs.records && id !in handles && record == fs.records[id]
      modifies this`fs, vol.Footprint()
      ensures Valid() && handles == old(handles) && id in old(fs).chains && fs == Emptied(old(fs), id)
      ensures r == fs.records[id]
      ensures forall j :: j in old(fs).records && j != id ==> SameFile(old(vol.flat), vol.flat, vol.g, old(fs), fs, j)
      ensures Settled(vol.g, fs, id) && Used(vol.flat, vol.g, dir) == old(Used(vol.flat, vol.g, dir))
    {
      hide HandleObjects, Footprint, OtherObjects, Volume.Coherent, Volume.View, Volume.Unsaved, Geometry.Valid,
           Sound, SameFile, Shows, HandleOf, Settled, Wired, FileDirty.Valid, Others, Represents, Good, Recorded,
           Used, Entries, AllStore, Filled, Holds, OnDevice, Clean;
      ghost var others := OutOfReach(id);
      r := TruncateStored(alloc, table, record, dir, fs, id);
      OthersStepped(vol, alloc, handles, fs, Emptied(fs, id), id);
      fs := Emptied(fs, id);
      Rewired(id);
    }

    /** `delete_inner` for a closed file. */
    method RemoveFound(id: Name, record: FileDetails)
      requires Valid() && id in fs.records && id !in handles && record == fs.records[id]
      modifies this`fs, vol.Footprint()
      ensures Valid() && handles == old(handles)
      ensures id in old(fs).chains && fs == Forget(Emptied(old(fs), id), id)
      ensures forall j :: j in old(fs).records && j != id ==> SameFile(old(vol.flat), vol.flat, vol.g, old(fs), fs, j)
      ensures Used(vol.flat, vol.g, dir)
              == Mark(old(Used(vol.flat, vol.g, dir)), IndexAt(vol.g, dir, record.location),
                  record.secondaryCount + 1, false)
    {
      hide HandleObjects, Footprint, OtherObjects, Volume.Coherent, Volume.View, Volume.Unsaved, Geometry.Valid,
           Sound, SameFile, Shows, HandleOf, Settled, Wired, FileDirty.Valid, Others, Represents, Good, Recorded,
           Used, Entries, AllStore, Filled, Mark, IndexAt, PlaceOf, Capacity, Distinct, IsDirectory, ListsAll, Holds,
           OnDevice, Clean, Emptied, Forget;
      ghost var others := OutOfReach(id);
      RemoveStored(alloc, table, record, dir, fs, id);
      ghost var next := Forget(Emptied(fs, id), id);
      ForgotSame(fs, id);
      OthersStepped(vol, alloc, handles, fs, next, id);
      fs := next;
      Rewired(id);
    }

    /** When no file is open the device holds exactly what the file system shows. */
    lemma AllSaved()
      requires Valid() && handles == map[]
      ensures vol.dev.blocks == vol.flat
    {
      hide Books, FileOk, Volume.Coherent, Shows, Recorded;
      NoneOpen(vol.g, vol.flat, vol.Unsaved(), fs);
      NotBehind(vol.g, vol.flat, vol.dev.blocks);
    }
  }

  lemma SameContentsTrans(d: seq<Block>, d1: seq<Block>, d2: seq<Block>, g: Geometry, fs: Fs, fs1: Fs, fs2: Fs,
                          id: Name)
    requires SameContents(d, d1, g, fs, fs1, id) && SameContents(d1, d2, g, fs1, fs2, id)
    ensures SameContents(d, d2, g, fs, fs2, id)
  {
    hide Visible, PlacedAt, ClustersFor, AllStore;
  }

  /** The record of a flushed file is up to date. */
  lemma CleanRecords(fs: Fs, id: Name)
    requires id in fs.open && id in fs.records && !fs.open[id].dirty
    ensures Closed(fs, id).records == fs.records && Closed(fs, id).system == fs.system
  {
  }

  lemma NoneOpen(g: Geometry, d: seq<Block>, unsaved: set<Spot>, fs: Fs)
    requires Sound(g, d, unsaved, fs) && fs.open.Keys == {}
    ensures unsaved == {}
  {
    hide Books, FileOk;
    assert Covered(unsaved, fs);
    assert forall id :: id !in fs.open;
  }

  lemma ForgotSame(fs: Fs, id: Name)
    requires id in fs.records && id in fs.chains
    ensures var next := Forget(Emptied(fs, id), id);
            && next.open == fs.open
            && forall j :: j in fs.chains && j != id ==> j in next.chains && next.chains[j] == fs.chains[j]
  {
  }

  lemma SteppedSame(fs: Fs, fs': Fs, id: Name)
    requires OnlyStepped(fs, fs', id)
    ensures fs'.records == fs.records && fs'.open.Keys == fs.open.Keys
    ensures forall j :: j in fs.open && j in fs.chains && j != id ==>
              j in fs'.open && j in fs'.chains && fs'.open[j] == fs.open[j] && fs'.chains[j] == fs.chains[j]
  {
  }
}
