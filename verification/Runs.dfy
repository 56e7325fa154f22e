/** Whole runs of the file system against the model: every operation returns what it returns in the
    model, and the disk ends up holding the files of the model. */
module Runs {
  import opened Bytes
  import opened ChainStore
  import opened Conservation
  import opened Contents
  import opened DirEntry
  import opened Directory
  import opened DirPlace
  import opened DirReader
  import opened DirState
  import opened DirWriter
  import opened Disk
  import opened EntrySet
  import opened File
  import opened FileData
  import opened FileOps
  import FileSystem
  import opened FsState
  import opened Names
  import opened Results
  import opened RunModel
  import opened RunSteps
  import Volume

  /** The files of `s` are all in order. */
  ghost predicate Ready(s: FileSystem.FileSystem)
    reads s, s.Footprint()
  {
    s.Valid() && InOrder(s.vol.flat, s.vol.g, s.fs)
  }

  ghost function WorldOf(s: FileSystem.FileSystem): World { World(s.vol.g, s.table, s.dir) }

  ghost function StateOf(s: FileSystem.FileSystem): (st: AState)
    requires Ready(s)
    reads s, s.Footprint()
    ensures WorldOf(s).Valid() && |st.used| == Capacity(s.vol.g, s.dir) && Sane(st)
  {
    s.DirectoryFacts();
    AState(Model(s.vol.flat, s.vol.g, s.fs), Used(s.vol.flat, s.vol.g, s.dir))
  }

  ghost predicate Can(s: FileSystem.FileSystem, op: Op)
    reads s, s.Footprint()
  {
    Ready(s) && Allowed(WorldOf(s), StateOf(s), op)
  }

  // ---- facts about the state -------------------------------------------------------------------------

  lemma StateFacts(s: FileSystem.FileSystem)
    requires Ready(s)
    ensures s.vol.g.Valid() && Good(s.vol.flat, s.vol.g) && AllStore(s.vol.g, s.dir)
    ensures Sound(s.vol.g, s.vol.flat, s.vol.Unsaved(), s.fs) && InOrder(s.vol.flat, s.vol.g, s.fs)
    ensures StateOf(s) == AState(Model(s.vol.flat, s.vol.g, s.fs), Used(s.vol.flat, s.vol.g, s.dir))
    ensures s.fs.open.Keys == s.handles.Keys
  {
    hide Volume.Volume.Coherent, Geometry.Valid, Good, Sound, FileSystem.Shows, AllStore, Model, InOrder, Used,
         Recorded;
    s.DirectoryFacts();
  }

  /** What there is to work with when file `id` is open. */
  lemma OpenFileFacts(s: FileSystem.FileSystem, id: Name)
    requires Ready(s) && IsOpen(StateOf(s).files, id)
    ensures id in s.handles && id in s.fs.records && id in s.fs.open
    ensures Settled(s.vol.g, s.fs, id)
    ensures s.handles[id] in s.Footprint() && s.handles[id].touched in s.Footprint()
  {
    hide Volume.Volume.Coherent, Geometry.Valid, Good, Sound, FileSystem.Shows, AllStore, ContentsOf, Settled, Used,
         Recorded;
    InState(s, id);
    assert (s.handles[id] as object) in s.HandleObjects() && (s.handles[id].touched as object) in s.HandleObjects();
  }

  lemma InState(s: FileSystem.FileSystem, id: Name)
    requires Ready(s)
    ensures id in StateOf(s).files <==> id in s.fs.records
    ensures id in StateOf(s).files ==> (StateOf(s).files[id].mode.Some? <==> id in s.fs.open) && Settled(s.vol.g, s.fs, id)
    ensures id in s.fs.open ==> id in s.fs.records
  {
    hide Volume.Volume.Coherent, Geometry.Valid, Good, FileSystem.FileSystem.Wired, AllStore, ContentsOf, Settled,
         Used, Recorded, Books, FileOk, Covered;
  }

  // ---- operations on open files ------------------------------------------------------------------------

  method DoWrite(s: FileSystem.FileSystem, id: Name, x: seq<byte>) returns (out: Out)
    requires Can(s, Write(id, x))
    modifies s.Footprint()
    ensures s.Valid() && s.Footprint() == old(s.Footprint()) && Room(s.vol.g, s.fs) == old(Room(s.vol.g, s.fs))
    ensures var next := Step(WorldOf(s), old(StateOf(s)), Write(id, x));
            if !Fits(s.vol.g, Room(s.vol.g, s.fs), next.0.files) then out == Failed(DiskFull)
            else Ready(s) && (StateOf(s), out) == next
  {
    hide Volume.Volume.Footprint, Volume.Volume.Coherent, Geometry.Valid, Good, InOrder, Model, Settled, SameFile,
         FileModel, Sound, FileSystem.FileSystem.Wired, Next, Used, AllStore, Recorded, Written, Outcome, BadTail,
         Fits, FreeSet;
    StateFacts(s);
    OpenFileFacts(s, id);
    ghost var d, fs, u := s.vol.flat, s.fs, s.vol.Unsaved();
    var r := s.Write(id, x);
    WriteStep(d, s.vol.flat, s.vol.g, u, fs, s.fs, id, x, r);
    out := if r.Ok? then Done else Failed(r.error);
  }

  method DoRead(s: FileSystem.FileSystem, id: Name, n: nat) returns (out: Out)
    requires Can(s, Read(id, n))
    modifies s.Footprint()
    ensures Ready(s) && fresh(s.Footprint() - old(s.Footprint())) && Room(s.vol.g, s.fs) == old(Room(s.vol.g, s.fs))
    ensures (StateOf(s), out) == Step(WorldOf(s), old(StateOf(s)), Read(id, n))
  {
    hide Volume.Volume.Footprint, Volume.Volume.Coherent, Geometry.Valid, Good, InOrder, Model, Settled, SameFile,
         FileModel, Sound, FileSystem.FileSystem.Wired, Next, Used, AllStore, Recorded, FreeSet, WasRead;
    StateFacts(s);
    OpenFileFacts(s, id);
    ghost var fs := s.fs;
    var r := s.Read(id, n);
    ReadStep(s.vol.flat, s.vol.g, fs, s.fs, id, n, r);
    out := if r.Ok? then Got(r.value) else Failed(r.error);
  }

  method DoSeek(s: FileSystem.FileSystem, id: Name, pos: nat) returns (out: Out)
    requires Can(s, Seek(id, pos))
    modifies s.Footprint()
    ensures Ready(s) && fresh(s.Footprint() - old(s.Footprint())) && Room(s.vol.g, s.fs) == old(Room(s.vol.g, s.fs))
    ensures (StateOf(s), out) == Step(WorldOf(s), old(StateOf(s)), Seek(id, pos))
  {
    hide Volume.Volume.Footprint, Volume.Volume.Coherent, Geometry.Valid, Good, InOrder, Model, Settled, SameFile,
         FileModel, Sound, FileSystem.FileSystem.Wired, Next, Used, AllStore, Recorded, FreeSet, WasSought;
    StateFacts(s);
    OpenFileFacts(s, id);
    ghost var fs := s.fs;
    var r := s.Seek(id, pos);
    SeekStep(s.vol.flat, s.vol.g, fs, s.fs, id, pos, r);
    out := if r.Ok? then Done else Failed(r.error);
  }

  method DoFlush(s: FileSystem.FileSystem, id: Name, t: Stamp) returns (out: Out)
    requires Can(s, Flush(id, t))
    modifies s.Footprint()
    ensures Ready(s) && fresh(s.Footprint() - old(s.Footprint())) && Room(s.vol.g, s.fs) == old(Room(s.vol.g, s.fs))
    ensures (StateOf(s), out) == Step(WorldOf(s), old(StateOf(s)), Flush(id, t))
  {
    hide Volume.Volume.Footprint, Volume.Volume.Coherent, Geometry.Valid, Good, InOrder, Model, Settled, SameFile,
         FileModel, Sound, FileSystem.FileSystem.Wired, Next, Used, AllStore, Recorded, FreeSet, SameContents,
         Flushed, EntryFlushed, IndexAt, FileSystem.FileSystem.DirEntries;
    StateFacts(s);
    OpenFileFacts(s, id);
    ghost var d, fs, u := s.vol.flat, s.fs, s.vol.Unsaved();
    s.Flush(id, t);
    SoundValid(s.vol.g, s.vol.flat, s.vol.Unsaved(), s.fs);
    FlushStep(d, s.vol.flat, s.vol.g, u, fs, id, t);
    out := Done;
  }

  method DoClose(s: FileSystem.FileSystem, id: Name, t: Stamp) returns (out: Out)
    requires Can(s, Op.Close(id, t))
    modifies s.Footprint()
    ensures Ready(s) && fresh(s.Footprint() - old(s.Footprint())) && Room(s.vol.g, s.fs) == old(Room(s.vol.g, s.fs))
    ensures (StateOf(s), out) == Step(WorldOf(s), old(StateOf(s)), Op.Close(id, t))
  {
    hide Volume.Volume.Coherent, Geometry.Valid, Good, InOrder, Model, Settled, SameFile, FileModel, Sound,
         FileSystem.FileSystem.Wired, Next, Used, AllStore, Recorded, FreeSet, SameContents, Flushed;
    StateFacts(s);
    OpenFileFacts(s, id);
    ghost var d, fs, u := s.vol.flat, s.fs, s.vol.Unsaved();
    s.Close(id, t);
    SoundValid(s.vol.g, s.vol.flat, s.vol.Unsaved(), s.fs);
    CloseStep(d, s.vol.flat, s.vol.g, u, fs, id, t);
    out := Done;
  }

  // ---- the directory as the model sees it --------------------------------------------------------------

  /** The search for free entries, on the entries and on which of them are in use. */
  lemma SearchAgrees(d: seq<Block>, g: Geometry, dir: seq<nat>, n: nat)
    requires g.Valid() && Good(d, g) && AllStore(g, dir) && n > 0
    ensures var es, r := Entries(d, g, dir), LeastFree(Used(d, g, dir), n, 0);
            && (forall k: nat :: FirstFit(es, k, n) <==> r == Some(k))
            && (SomewhereFree(es, n) <==> r.Some?)
  {
    hide Entries, LeastFree, InUse, Capacity;
    var es, used := Entries(d, g, dir), Used(d, g, dir);
    assert forall k: nat :: FreeEntries(es, k, n) <==> FreeAt(used, k, n);
    var r := LeastFree(used, n, 0);
    if r.Some? {
      assert FreeEntries(es, r.value, n) && FirstFit(es, r.value, n);
    }
    forall k: nat ensures FirstFit(es, k, n) <==> r == Some(k) {
    }
  }

  lemma RoomAgrees(d: seq<Block>, g: Geometry, dir: seq<nat>, n: nat)
    requires g.Valid() && Good(d, g) && AllStore(g, dir) && n > 0 && RoomIn(g, Used(d, g, dir), n)
    ensures HasRoom(g, Entries(d, g, dir), dir, n)
  {
    hide Entries, LeastFree, InUse, Capacity, FirstFit, SomewhereFree, ClusterNo;
    SearchAgrees(d, g, dir, n);
    var es := Entries(d, g, dir);
    forall k | SearchResult(es, n, Some(k)) ensures FreeEntries(es, k, n) && InOneCluster(g, dir, k, n) {
      if LeastFree(Used(d, g, dir), n, 0).Some? {
        ResultFits(es, n, k);
      } else {
        ResultShort(es, n, k);
      }
    }
  }

  lemma ResultFits(es: seq<RawEntry>, n: nat, k: nat)
    requires SearchResult(es, n, Some(k)) && SomewhereFree(es, n)
    ensures FirstFit(es, k, n) && FreeEntries(es, k, n) && k + n <= |es|
  {
  }

  lemma ResultShort(es: seq<RawEntry>, n: nat, k: nat)
    requires SearchResult(es, n, Some(k)) && !SomewhereFree(es, n)
    ensures |es| > 0 && !InUse(es[|es| - 1])
  {
  }

  // ---- operations on the directory -------------------------------------------------------------------------

  /** Looking a name up changes nothing. */
  method DoFind(s: FileSystem.FileSystem, name: seq<u16>) returns (r: Result<Option<FileDetails>>)
    requires Ready(s)
    modifies s.Footprint()
    ensures Ready(s) && s.Footprint() == old(s.Footprint()) && s.handles == old(s.handles) && s.fs == old(s.fs)
    ensures StateOf(s) == old(StateOf(s))
    ensures r == if name == [] then Ok(None)
                 else if !IsLegal(name) then Err(InvalidFileName)
                 else if Upcased(s.table, name) in s.fs.records then Ok(Some(s.fs.records[Upcased(s.table, name)]))
                 else Ok(None)
    ensures Upcased(s.table, name) in s.fs.records <==> Upcased(s.table, name) in StateOf(s).files
  {
    hide Volume.Volume.Coherent, Geometry.Valid, Good, InOrder, Model, Settled, SameFile, FileModel, Sound,
         FileSystem.FileSystem.Wired, Next, Used, AllStore, Recorded, IsLegal, Upcased, FileSystem.FileSystem.Listed;
    StateFacts(s);
    InState(s, Upcased(s.table, name));
    r := s.Find(name);
    StateFacts(s);
  }

  /** The removing part of `remove_file`. */
  method DoRemoveFound(s: FileSystem.FileSystem, id: Name, record: FileDetails)
    requires Ready(s) && IsClosed(StateOf(s).files, id) && id in s.fs.records && record == s.fs.records[id]
    modifies s.Footprint()
    ensures Ready(s) && s.Footprint() == old(s.Footprint()) && Room(s.vol.g, s.fs) == old(Room(s.vol.g, s.fs))
    ensures var was, f := old(StateOf(s)), old(StateOf(s)).files[id];
            StateOf(s) == AState(was.files - {id},
                Mark(was.used, IndexAt(s.vol.g, s.dir, f.location), f.secondaryCount + 1, false))
  {
    hide Volume.Volume.Footprint, Volume.Volume.Coherent, Geometry.Valid, Good, InOrder, Model, Settled, SameFile,
         FileModel, Sound, FileSystem.FileSystem.Wired, Next, Used, AllStore, Recorded, FreeSet, Mark, IndexAt;
    StateFacts(s);
    InState(s, id);
    ghost var d, fs := s.vol.flat, s.fs;
    PlaceKept(d, s.vol.g, fs, id);
    s.RemoveFound(id, record);
    SoundValid(s.vol.g, s.vol.flat, s.vol.Unsaved(), s.fs);
    RemoveStep(d, s.vol.flat, s.vol.g, fs, s.fs, id);
  }

  lemma RemoveNeeds(s: FileSystem.FileSystem, name: seq<u16>)
    requires Can(s, Remove(name)) && IsLegal(name) && Upcased(s.table, name) in StateOf(s).files
    ensures IsClosed(StateOf(s).files, Upcased(s.table, name))
  {
    hide Volume.Volume.Coherent, Geometry.Valid, StateOf, Ready, IsLegal, Upcased;
  }

  /** `remove_file`. */
  method DoRemove(s: FileSystem.FileSystem, name: seq<u16>) returns (out: Out)
    requires Can(s, Remove(name))
    modifies s.Footprint()
    ensures Ready(s) && fresh(s.Footprint() - old(s.Footprint())) && Room(s.vol.g, s.fs) == old(Room(s.vol.g, s.fs))
    ensures (StateOf(s), out) == Step(WorldOf(s), old(StateOf(s)), Remove(name))
  {
    hide Volume.Volume.Footprint, Volume.Volume.Coherent, Geometry.Valid, Good, InOrder, Model, Settled, SameFile,
         FileModel, Sound, FileSystem.FileSystem.Wired, FileSystem.FileSystem.Valid, Next, Used, AllStore, Recorded,
         IsLegal, Upcased, FreeSet, Mark, IndexAt, StateOf, Ready, Room, Capacity, Step, Removing,
         FileSystem.ObjectsOf;
    RemoveGives(WorldOf(s), StateOf(s), name);
    var found := DoFind(s, name);
    if found.Err? {
      return Failed(InvalidFileName);
    }
    if found.value.None? {
      return Failed(FileNotFound);
    }
    RemoveNeeds(s, name);
    DoRemoveFound(s, Upcased(s.table, name), found.value.value);
    out := Done;
  }

  /** What creating asks for, and how the model sees it. */
  lemma CreateNeeds(s: FileSystem.FileSystem, name: seq<u16>)
    requires Ready(s) && (IsLegal(name) ==> RoomIn(s.vol.g, StateOf(s).used, SetLength(|name|)))
    ensures s.RoomFor(name)
    ensures var r := LeastFree(StateOf(s).used, SetLength(|name|), 0);
            (s.HasFree(SetLength(|name|)) <==> r.Some?) && forall k: nat :: s.FitsAt(k, SetLength(|name|)) <==> r == Some(k)
  {
    hide Volume.Volume.Coherent, Geometry.Valid, Good, InOrder, Model, Settled, Sound, FileSystem.FileSystem.Wired,
         Used, AllStore, Recorded, IsLegal, LeastFree, Entries, FirstFit, SomewhereFree, HasRoom, RoomIn, Capacity,
         InUse;
    StateFacts(s);
    SearchAgrees(s.vol.flat, s.vol.g, s.dir, SetLength(|name|));
    if IsLegal(name) {
      RoomAgrees(s.vol.flat, s.vol.g, s.dir, SetLength(|name|));
    }
  }

  /** A new file; `DirectoryFull` when no run of entries is long enough. */
  method DoCreate(s: FileSystem.FileSystem, name: seq<u16>, t: Stamp) returns (r: Result<FileDetails>)
    requires Ready(s) && IsLegal(name) && |name| <= 255 && Upcased(s.table, name) !in s.fs.records
    requires RoomIn(s.vol.g, StateOf(s).used, SetLength(|name|))
    modifies s.Footprint()
    ensures Ready(s) && s.Footprint() == old(s.Footprint()) && s.handles == old(s.handles)
    ensures Room(s.vol.g, s.fs) == old(Room(s.vol.g, s.fs))
    ensures match LeastFree(old(StateOf(s)).used, SetLength(|name|), 0)
            case None => r == Err(DirectoryFull) && StateOf(s) == old(StateOf(s))
            case Some(k) =>
              && r.Ok? && StateOf(s) == WithNew(WorldOf(s), old(StateOf(s)), name, k)
              && Upcased(s.table, name) in s.fs.records && r.value == s.fs.records[Upcased(s.table, name)]
              && Upcased(s.table, name) !in s.handles
  {
    hide Volume.Volume.Footprint, Volume.Volume.Coherent, Geometry.Valid, Good, InOrder, Model, Settled, SameFile,
         FileModel, Sound, FileSystem.FileSystem.Wired, Next, Used, AllStore, Recorded, IsLegal, Upcased, FreeSet,
         Mark, IndexAt, LeastFree, Entries, FirstFit, SomewhereFree, HasRoom, RoomIn, PlaceOf, Capacity,
         FileSystem.ObjectsOf, Holds, InUse, EntriesOf, FileSystem.FileSystem.HasFree, FileSystem.FileSystem.FitsAt,
         FileSystem.FileSystem.RoomFor;
    ghost var id := Upcased(s.table, name);
    StateFacts(s);
    InState(s, id);
    ghost var d, fs := s.vol.flat, s.fs;
    CreateNeeds(s, name);
    ghost var k;
    r, k := s.Create(name, t);
    if r.Ok? {
      s.DirectoryFacts();
      SoundValid(s.vol.g, s.vol.flat, s.vol.Unsaved(), s.fs);
      CreateStep(d, s.vol.flat, s.vol.g, fs, id, r.value);
    }
  }

  /** There is no file without a name, and none is made. */
  method DoCreateNameless(s: FileSystem.FileSystem, t: Stamp)
    requires Ready(s)
    modifies s.Footprint()
    ensures Ready(s) && s.Footprint() == old(s.Footprint()) && StateOf(s) == old(StateOf(s))
    ensures Room(s.vol.g, s.fs) == old(Room(s.vol.g, s.fs))
  {
    hide Volume.Volume.Footprint, Volume.Volume.Coherent, Geometry.Valid, Good, InOrder, Model, Settled, SameFile,
         FileModel, Sound, FileSystem.FileSystem.Wired, Used, AllStore, Recorded, Mark, Entries, FirstFit,
         SomewhereFree, HasRoom, PlaceOf, Capacity;
    StateFacts(s);
    NamesNotEmpty(s.vol.flat, s.vol.g, s.table, s.dir, s.fs);
    assert Upcased(s.table, []) == [] && !IsLegal([]);
    var r;
    ghost var k;
    r, k := s.Create([], t);
    StateFacts(s);
  }

  /** `open` with truncation, the truncating part. */
  method DoTruncate(s: FileSystem.FileSystem, id: Name, record: FileDetails) returns (r: FileDetails)
    requires Ready(s) && IsClosed(StateOf(s).files, id) && id in s.fs.records && record == s.fs.records[id]
    modifies s.Footprint()
    ensures Ready(s) && s.Footprint() == old(s.Footprint()) && s.handles == old(s.handles)
    ensures Room(s.vol.g, s.fs) == old(Room(s.vol.g, s.fs))
    ensures StateOf(s) == WithFile(old(StateOf(s)), id, Truncated(old(StateOf(s)).files[id]))
    ensures id in s.fs.records && r == s.fs.records[id]
  {
    hide Volume.Volume.Footprint, Volume.Volume.Coherent, Geometry.Valid, Good, InOrder, Model, Settled, SameFile,
         FileModel, Sound, FileSystem.FileSystem.Wired, Next, Used, AllStore, Recorded, FreeSet;
    StateFacts(s);
    InState(s, id);
    ghost var d, fs := s.vol.flat, s.fs;
    r := s.TruncateFound(id, record);
    SoundValid(s.vol.g, s.vol.flat, s.vol.Unsaved(), s.fs);
    TruncateStep(d, s.vol.flat, s.vol.g, fs, id);
  }

  /** The last part of `open`. */
  method DoOpenFound(s: FileSystem.FileSystem, id: Name, record: FileDetails, o: OpenOptions)
    requires Ready(s) && IsClosed(StateOf(s).files, id) && id in s.fs.records && record == s.fs.records[id]
    requires o.append ==> AppendsWell(s.vol.g, StateOf(s).files[id])
    modifies s.Footprint()
    ensures Ready(s) && fresh(s.Footprint() - old(s.Footprint())) && Room(s.vol.g, s.fs) == old(Room(s.vol.g, s.fs))
    ensures StateOf(s) == WithFile(old(StateOf(s)), id, OpenedAs(old(StateOf(s)).files[id], o))
  {
    hide Volume.Volume.Footprint, Volume.Volume.Coherent, Geometry.Valid, Good, InOrder, Model, Settled, SameFile,
         FileModel, Sound, FileSystem.FileSystem.Wired, Next, Used, AllStore, Recorded, FreeSet, OpensWell,
         AppendsWell, FileSystem.ObjectsOf, OpenedAs, Holds;
    StateFacts(s);
    InState(s, id);
    ghost var fs, hs := s.fs, s.handles;
    s.OpenFound(id, record, o.read, o.write, o.append);
    FileSystem.ObjectsPlus(hs, id, s.handles[id]);
    OpenStep(s.vol.flat, s.vol.g, fs, s.fs, id, o);
  }

  lemma OpenNeeds(s: FileSystem.FileSystem, name: seq<u16>, o: OpenOptions, t: Stamp)
    requires Can(s, Op.Open(name, o, t)) && IsLegal(name)
    ensures var st, id := StateOf(s), Upcased(s.table, name);
            if id in st.files then
              !o.createNew ==> IsClosed(st.files, id) && (o.append && !o.truncate ==> AppendsWell(s.vol.g, st.files[id]))
            else Creates(o) ==> |name| <= 255 && RoomIn(s.vol.g, st.used, SetLength(|name|))
  {
    hide Volume.Volume.Coherent, Geometry.Valid, StateOf, Ready, IsLegal, Upcased, AppendsWell, RoomIn;
  }

  lemma EmptyAppends(g: Geometry, f: AFile)
    requires g.Valid() && f.bytes == []
    ensures AppendsWell(g, f)
  {
  }

  /** `FileSystem::open`: finds the file, or makes it if asked to, empties it if asked to, and makes a
      handle for it. */
  method DoOpen(s: FileSystem.FileSystem, name: seq<u16>, o: OpenOptions, t: Stamp) returns (out: Out)
    requires Can(s, Op.Open(name, o, t))
    modifies s.Footprint()
    ensures Ready(s) && fresh(s.Footprint() - old(s.Footprint())) && Room(s.vol.g, s.fs) == old(Room(s.vol.g, s.fs))
    ensures (StateOf(s), out) == Step(WorldOf(s), old(StateOf(s)), Op.Open(name, o, t))
  {
    hide Volume.Volume.Footprint, Volume.Volume.Coherent, Geometry.Valid, Good, InOrder, Model, Settled, SameFile,
         FileModel, Sound, FileSystem.FileSystem.Wired, Next, Used, AllStore, Recorded, IsLegal, Upcased, FreeSet,
         Mark, LeastFree, RoomIn, AppendsWell, StateOf, PlaceOf, Capacity, OpenedAs, Ready;
    StateFacts(s);
    var id := Upcased(s.table, name);
    var found := DoFind(s, name);
    if found.Err? {
      return Failed(InvalidFileName);
    }
    if name == [] {
      if o.create || o.createNew {
        DoCreateNameless(s, t);
        return Failed(InvalidFileName);
      }
      return Failed(FileNotFound);
    }
    OpenNeeds(s, name, o, t);
    var details;
    if found.value.Some? {
      details := found.value.value;
      if o.createNew {
        return Failed(AlreadyExists);
      }
      if o.truncate {
        details := DoTruncate(s, id, details);
        EmptyAppends(s.vol.g, StateOf(s).files[id]);
        WithFileTwice(old(StateOf(s)), id, StateOf(s).files[id], OpenedAs(StateOf(s).files[id], o));
      }
    } else if o.create || o.createNew {
      var created := DoCreate(s, name, t);
      if created.Err? {
        return Failed(created.error);
      }
      details := created.value;
      EmptyAppends(s.vol.g, StateOf(s).files[id]);
    } else {
      return Failed(FileNotFound);
    }
    DoOpenFound(s, id, details, o);
    out := Done;
  }

  // ---- runs ------------------------------------------------------------------------------------------------

  /** One operation does to the files, and returns, what the model says; only a write that there are too
      few clusters for fails instead. */
  method Do(s: FileSystem.FileSystem, op: Op) returns (out: Out)
    requires Can(s, op)
    modifies s.Footprint()
    ensures s.Valid() && fresh(s.Footprint() - old(s.Footprint())) && Room(s.vol.g, s.fs) == old(Room(s.vol.g, s.fs))
    ensures if Full(WorldOf(s), Room(s.vol.g, s.fs), old(StateOf(s)), op) then out == Failed(DiskFull)
            else Ready(s) && (StateOf(s), out) == Step(WorldOf(s), old(StateOf(s)), op)
  {
    hide Volume.Volume.Coherent, Geometry.Valid, Good, InOrder, Model, Sound, FileSystem.FileSystem.Wired, Next, Room,
         Allowed, Fits, Step, StateOf;
    match op {
      case Open(name, options, t) => out := DoOpen(s, name, options, t);
      case Write(id, x) => out := DoWrite(s, id, x);
      case Read(id, n) => out := DoRead(s, id, n);
      case Seek(id, pos) => out := DoSeek(s, id, pos);
      case Flush(id, t) => out := DoFlush(s, id, t);
      case Close(id, t) => out := DoClose(s, id, t);
      case Remove(name) => out := DoRemove(s, name);
    }
  }

  /** Whole runs: whatever the operations, every one of them returns what it returns in the model,
      where files are byte sequences that share nothing; and the files end up as in the model. A run
      ends early exactly when the model has too few clusters for a write. */
  method Run(s: FileSystem.FileSystem, ops: seq<Op>) returns (outs: seq<Out>)
    requires Ready(s) && RunAllowed(WorldOf(s), Room(s.vol.g, s.fs), StateOf(s), ops)
    modifies s.Footprint()
    ensures s.Valid() && fresh(s.Footprint() - old(s.Footprint()))
    ensures var t := RunOf(WorldOf(s), old(Room(s.vol.g, s.fs)), old(StateOf(s)), ops);
            outs == t.outs && (t.end.Some? ==> Ready(s) && StateOf(s) == t.end.value)
    decreases |ops|
  {
    hide Volume.Volume.Coherent, Geometry.Valid, Good, InOrder, Model, Sound, FileSystem.FileSystem.Wired, Room,
         Allowed, Step, Fits, Sane, StateOf, RunOf, RunAllowed, Full, FileSystem.FileSystem.Valid, Used;
    if ops == [] {
      RunEnds(WorldOf(s), Room(s.vol.g, s.fs), StateOf(s));
      return [];
    }
    RunUnfolds(WorldOf(s), Room(s.vol.g, s.fs), StateOf(s), ops);
    NeverFull(WorldOf(s), StateOf(s), ops[0]);
    var out := Do(s, ops[0]);
    if out == Failed(DiskFull) {
      return [out];
    }
    var rest := Run(s, ops[1..]);
    outs := [out] + rest;
  }

  /** At every state of a run the books are right: the files are sound and settled, no two of them share a
      cluster, and the free clusters and those that the model's files need add up to the room there was
      at the start. */
  lemma AtEveryState(s: FileSystem.FileSystem)
    requires Ready(s)
    ensures Sound(s.vol.g, s.vol.flat, s.vol.Unsaved(), s.fs) && AllSettled(s.vol.g, s.fs)
    ensures forall a, b, c :: a in s.fs.chains && b in s.fs.chains && c in s.fs.chains[a] && c in s.fs.chains[b] ==>
              a == b
    ensures FreeClusters(s.vol.g, s.vol.flat) + Total(ClusterCounts(s.vol.g, StateOf(s).files)) == Room(s.vol.g, s.fs)
  {
    hide Volume.Volume.Coherent, Geometry.Valid, Good, FileOk, Covered, Model, ClusterCounts, FreeClusters, Room,
         AllStore, Settled, FileSystem.FileSystem.Valid, Used;
    StateFacts(s);
    NoneShared(Abs(s.vol.flat, s.vol.g).alloc, s.fs.system, s.fs.chains, s.fs.owner);
    CountsAgree(s.vol.flat, s.vol.g, s.fs);
    ClustersConserved(s.vol.g, s.vol.flat, s.vol.Unsaved(), s.fs);
  }

  /** At every state of a run the device alone, without any cache, lists exactly the files of the model, and
      leads to the bytes of every file that is closed or flushed, whatever other files are open and
      unsaved. */
  lemma OnDevice(s: FileSystem.FileSystem, id: Name)
    requires Ready(s) && id in StateOf(s).files && Clean(s.fs, id)
    ensures s.vol.g.Valid() && Recorded(s.vol.dev.blocks, s.vol.g, s.table, s.dir, s.fs)
    ensures s.fs.records.Keys == StateOf(s).files.Keys
    ensures StoredAlone(s.vol.dev.blocks, s.vol.g, s.fs, id, StateOf(s).files[id].bytes)
  {
    hide Volume.Volume.Coherent, Geometry.Valid, Good, Sound, Settled, AllStore, Visible, Persisted, StoredAlone,
         ContentsOf, FileSystem.FileSystem.Wired, Used, Recorded, Clean;
    StateFacts(s);
    InState(s, id);
    s.CleanOnDevice(id);
  }

  /** A closed file is clean. */
  lemma ClosedClean(s: FileSystem.FileSystem, id: Name)
    requires Ready(s) && IsClosed(StateOf(s).files, id)
    ensures Clean(s.fs, id)
  {
    hide Volume.Volume.Coherent, Geometry.Valid, StateOf, Ready;
    InState(s, id);
  }

  /** With every file closed the device is the logical disk. */
  lemma AllOnDevice(s: FileSystem.FileSystem)
    requires Ready(s) && forall j :: j in StateOf(s).files ==> IsClosed(StateOf(s).files, j)
    ensures s.vol.dev.blocks == s.vol.flat
  {
    hide Volume.Volume.Coherent, Geometry.Valid, Good, Sound, FileSystem.FileSystem.Wired, Used, Recorded, Model;
    StateFacts(s);
    forall j ensures j !in s.handles {
      InState(s, j);
    }
    assert s.handles == map[];
    s.AllSaved();
  }
}
