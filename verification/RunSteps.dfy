/** One step of the file system is one step of the model, file by file. */
module RunSteps {
  import opened Bytes
  import opened ChainStore
  import opened Conservation
  import opened Contents
  import opened Directory
  import opened Disk
  import opened File
  import opened FileData
  import opened FsState
  import opened Names
  import opened Results
  import opened Spots
  import opened RunModel

  /** Everything is in order, so every file has contents. */
  ghost predicate InOrder(d: seq<Block>, g: Geometry, fs: Fs) {
    g.Valid() && Good(d, g) && forall id :: id in fs.records ==> Settled(g, fs, id) && AllStore(g, fs.chains[id])
  }

  ghost function FileModel(d: seq<Block>, g: Geometry, fs: Fs, id: Name): AFile
    requires g.Valid() && Good(d, g) && Settled(g, fs, id) && AllStore(g, fs.chains[id])
  {
    AFile(ContentsOf(d, g, fs, id), DetailsOf(fs, id).validDataLength,
          if id in fs.open then Some(Mode(fs.open[id].cursor, fs.open[id].canRead, fs.open[id].canWrite)) else None,
          fs.records[id].location, fs.records[id].secondaryCount)
  }

  ghost function Model(d: seq<Block>, g: Geometry, fs: Fs): (s: map<Name, AFile>)
    requires InOrder(d, g, fs)
    ensures s.Keys == fs.records.Keys && forall id :: id in s ==> s[id].valid <= |s[id].bytes|
  {
    map id | id in fs.records :: FileModel(d, g, fs, id)
  }

  lemma SameModel(d: seq<Block>, d': seq<Block>, g: Geometry, fs: Fs, fs': Fs, id: Name)
    requires SameFile(d, d', g, fs, fs', id) && Settled(g, fs, id)
    ensures Settled(g, fs', id) && AllStore(g, fs'.chains[id])
    ensures FileModel(d', g, fs', id) == FileModel(d, g, fs, id)
  {
    hide Visible, PlacedAt, ClustersFor;
  }

  lemma SameKept(d: seq<Block>, d': seq<Block>, g: Geometry, fs: Fs, fs': Fs, id: Name)
    requires SameFile(d, d', g, fs, fs', id)
    ensures id in fs'.records && id in fs'.chains
  {
  }

  /** When all files but one stay as they were, so does the model outside that one. */
  lemma ModelStep(d: seq<Block>, d': seq<Block>, g: Geometry, fs: Fs, fs': Fs, id: Name)
    requires InOrder(d, g, fs) && g.Valid() && Good(d', g)
    requires forall j :: j in fs.records && j != id ==> SameFile(d, d', g, fs, fs', j)
    requires forall j :: j in fs'.records && j != id ==> j in fs.records
    requires id in fs'.records ==> Settled(g, fs', id) && AllStore(g, fs'.chains[id])
    ensures InOrder(d', g, fs')
    ensures Model(d', g, fs') ==
              if id in fs'.records then Model(d, g, fs)[id := FileModel(d', g, fs', id)] else Model(d, g, fs) - {id}
  {
    hide SameFile, Settled, AllStore, FileModel;
    forall j | j in fs.records && j != id
      ensures j in fs'.records && j in fs'.chains
      ensures Settled(g, fs', j) && AllStore(g, fs'.chains[j]) && FileModel(d', g, fs', j) == FileModel(d, g, fs, j)
    {
      SameKept(d, d', g, fs, fs', j);
      SameModel(d, d', g, fs, fs', j);
    }
  }

  // ---- the operations, seen from the model -----------------------------------------------------

  lemma FilesOf(d: seq<Block>, g: Geometry, fs: Fs, id: Name)
    requires InOrder(d, g, fs) && id in fs.records
    ensures g.Valid() && Good(d, g) && Settled(g, fs, id) && id in fs.chains && AllStore(g, fs.chains[id])
    ensures Model(d, g, fs)[id] == FileModel(d, g, fs, id)
  {
    hide AllStore, FileModel, ClustersFor, PlacedAt;
  }

  lemma Grown(d: seq<Block>, g: Geometry, fs: Fs, id: Name)
    requires InOrder(d, g, fs) && id in fs.records
    ensures id in fs.chains && g.Valid() && |fs.chains[id]| == ClustersFor(|Model(d, g, fs)[id].bytes|, g)
  {
    hide Visible, AllStore, PlacedAt, ClustersFor;
  }

  /** The model's clusters are the file system's. */
  lemma CountsAgree(d: seq<Block>, g: Geometry, fs: Fs)
    requires InOrder(d, g, fs) && fs.chains.Keys == fs.records.Keys
    ensures g.Valid() && ClusterCounts(g, Model(d, g, fs)) == Sizes(fs.chains)
  {
    hide Settled, AllStore, FileModel, ClustersFor;
    forall id | id in fs.chains ensures |fs.chains[id]| == ClustersFor(|Model(d, g, fs)[id].bytes|, g) {
      Grown(d, g, fs, id);
    }
  }

  lemma CountsAfter(g: Geometry, s: map<Name, AFile>, id: Name, f: AFile)
    requires g.Valid() && id in s
    ensures Total(ClusterCounts(g, s[id := f])) + ClustersFor(|s[id].bytes|, g)
            == Total(ClusterCounts(g, s)) + ClustersFor(|f.bytes|, g)
  {
    hide ClustersFor;
    var m := ClusterCounts(g, s);
    assert ClusterCounts(g, s[id := f]) == m[id := ClustersFor(|f.bytes|, g)];
    TotalWith(m, id, ClustersFor(|f.bytes|, g));
  }

  /** How many clusters a file of the model gains by a write. */
  lemma Gains(g: Geometry, f: AFile, id: Name, x: seq<byte>)
    requires g.Valid() && f.mode.Some? && f.mode.value.at <= |f.bytes|
    ensures var have := ClustersFor(|f.bytes|, g);
            ClustersFor(|Next(f, Write(id, x)).0.bytes|, g)
            == have + if x == [] || !f.mode.value.canWrite then 0 else Shortfall(g, have, f.mode.value.at + |x|)
  {
    hide ClustersFor, Shortfall;
    Reached(g, ClustersFor(|f.bytes|, g), |f.bytes|, f.mode.value.at + |x|);
  }

  /** What the model knows of an open file. */
  lemma OpenModel(d: seq<Block>, g: Geometry, fs: Fs, id: Name)
    requires InOrder(d, g, fs) && id in fs.records && id in fs.open
    ensures var f := Model(d, g, fs)[id];
            && f.valid == fs.open[id].details.validDataLength && |f.bytes| == fs.open[id].details.dataLength
            && f.mode == Some(Mode(fs.open[id].cursor, fs.open[id].canRead, fs.open[id].canWrite))
            && f.valid <= |f.bytes| && fs.open[id].cursor <= |f.bytes|
  {
    hide Visible, AllStore, PlacedAt, ClustersFor;
  }

  /** A write finds enough free clusters exactly when the model's files fit afterwards. */
  lemma WriteFits(d: seq<Block>, g: Geometry, u: set<Spot>, fs: Fs, id: Name, x: seq<byte>)
    requires Sound(g, d, u, fs) && InOrder(d, g, fs) && id in fs.records && id in fs.open && id in fs.chains
    requires WriteAllowed(g, Model(d, g, fs)[id], x)
    ensures var s := Model(d, g, fs);
            Fits(g, Room(g, fs), s[id := Next(s[id], Write(id, x)).0]) <==> Outcome(g, d, fs, id, |x|) != Err(DiskFull)
  {
    hide Settled, AllStore, FileModel, ClustersFor, Books, FileOk, Covered, Visible, Model, FreeClusters, Room,
         Shortfall, ClusterCounts, InOrder, Geometry.Valid, Good, BadTail;
    var s := Model(d, g, fs);
    OpenModel(d, g, fs, id);
    Grown(d, g, fs, id);
    CountsAgree(d, g, fs);
    ClustersConserved(g, d, u, fs);
    Gains(g, s[id], id, x);
    CountsAfter(g, s, id, Next(s[id], Write(id, x)).0);
  }

  ghost predicate WriteAllowed(g: Geometry, f: AFile, x: seq<byte>)
    requires g.Valid()
  {
    f.mode.Some? && f.mode.value.at <= f.valid <= |f.bytes| && !BadTail(g, f.mode.value.at, |x|)
  }

  /** The write step: file `id` of the model changes as the model says, when the write succeeds and
      when the handle does not allow it. */
  lemma WriteModel(d: seq<Block>, d': seq<Block>, g: Geometry, fs: Fs, fs': Fs, id: Name, x: seq<byte>, r: Result<()>)
    requires fs'.records == fs.records
    requires InOrder(d, g, fs) && id in fs.records && id in fs'.records && id in fs.open
    requires r.Ok? || r == Err(WriteNotEnabled)
    requires r == Err(WriteNotEnabled) <==> x != [] && !fs.open[id].canWrite
    requires Written(d, d', g, fs, fs', id, if r.Ok? then x else [])
    requires fs.open[id].cursor <= fs.open[id].details.validDataLength
    ensures Good(d', g) && Settled(g, fs', id) && AllStore(g, fs'.chains[id])
    ensures FileModel(d', g, fs', id) == Next(FileModel(d, g, fs, id), Write(id, x)).0
    ensures Next(FileModel(d, g, fs, id), Write(id, x)).1 == if r.Ok? then Done else Failed(r.error)
  {
    hide Settled, AllStore, RawOf, InOrder, GapClean;
    FilesOf(d, g, fs, id);
    WrittenInside(d, d', g, fs, fs', id, if r.Ok? then x else []);
    assert WriteAt(ContentsOf(d, g, fs, id), fs.open[id].cursor, []) == ContentsOf(d, g, fs, id);
  }

  /** A step that moves the mode of a file and leaves its clusters and lengths alone. */
  lemma MovedModel(d: seq<Block>, g: Geometry, fs: Fs, fs': Fs, id: Name)
    requires fs'.records == fs.records
    requires Settled(g, fs, id) && Settled(g, fs', id) && Good(d, g) && AllStore(g, fs.chains[id])
    requires fs'.chains[id] == fs.chains[id] && DetailsOf(fs', id) == DetailsOf(fs, id)
    ensures AllStore(g, fs'.chains[id])
    ensures FileModel(d, g, fs', id) == FileModel(d, g, fs, id).(mode := FileModel(d, g, fs', id).mode)
  {
    hide Visible, AllStore, PlacedAt, ClustersFor;
  }

  lemma ModeOf(d: seq<Block>, g: Geometry, fs: Fs, id: Name)
    requires Settled(g, fs, id) && Good(d, g) && AllStore(g, fs.chains[id])
    ensures FileModel(d, g, fs, id).mode ==
              if id in fs.open then Some(Mode(fs.open[id].cursor, fs.open[id].canRead, fs.open[id].canWrite)) else None
  {
    hide Visible, AllStore, PlacedAt, ClustersFor;
  }

  lemma ReadModel(d: seq<Block>, g: Geometry, fs: Fs, fs': Fs, id: Name, n: nat, r: Result<Option<seq<byte>>>)
    requires fs'.records == fs.records
    requires InOrder(d, g, fs) && id in fs.records && id in fs'.records && id in fs.open
    requires WasRead(d, g, fs, fs', id, n, r)
    ensures Settled(g, fs', id) && AllStore(g, fs'.chains[id])
    ensures FileModel(d, g, fs', id) == Next(FileModel(d, g, fs, id), Read(id, n)).0
    ensures Next(FileModel(d, g, fs, id), Read(id, n)).1 == if r.Ok? then Got(r.value) else Failed(r.error)
  {
    hide Settled, AllStore, Visible;
    FilesOf(d, g, fs, id);
  }

  /** When the model allows a seek, the file stays in order. */
  lemma SoughtWell(d: seq<Block>, g: Geometry, fs: Fs, fs': Fs, id: Name, pos: nat, r: Result<()>)
    requires fs'.records == fs.records
    requires InOrder(d, g, fs) && id in fs.records && id in fs'.records && id in fs.open
    requires WasSought(d, g, fs, fs', id, pos, r) && SeekAllowed(g, Model(d, g, fs), id, pos)
    ensures g.Valid() && Good(d, g) && id in fs.chains && AllStore(g, fs.chains[id])
    ensures fs'.chains[id] == fs.chains[id] && fs'.open[id].details == fs.open[id].details && SameMode(fs, fs', id)
    ensures Settled(g, fs, id) && Settled(g, fs', id)
    ensures (r.Ok? <==> pos <= fs.open[id].details.validDataLength) && (r.Err? ==> r == Err(SeekOutOfRange))
    ensures fs'.open[id].cursor == if r.Ok? then pos else fs.open[id].cursor
  {
    hide AllStore, Model, InOrder, PlacedAt, ClustersFor, FileModel;
    FilesOf(d, g, fs, id);
    OpenModel(d, g, fs, id);
    Grown(d, g, fs, id);
    NoClustersWhenEmpty(fs.open[id].details.dataLength, g);
  }

  lemma SeekModel(d: seq<Block>, g: Geometry, fs: Fs, fs': Fs, id: Name, pos: nat, r: Result<()>)
    requires fs'.records == fs.records
    requires InOrder(d, g, fs) && id in fs.records && id in fs'.records && id in fs.open
    requires WasSought(d, g, fs, fs', id, pos, r) && SeekAllowed(g, Model(d, g, fs), id, pos)
    ensures Settled(g, fs', id) && AllStore(g, fs'.chains[id])
    ensures FileModel(d, g, fs', id) == Next(FileModel(d, g, fs, id), Seek(id, pos)).0
    ensures Next(FileModel(d, g, fs, id), Seek(id, pos)).1 == if r.Ok? then Done else Failed(r.error)
  {
    hide AllStore, Model, InOrder, Settled, SeekAllowed, FileModel;
    FilesOf(d, g, fs, id);
    OpenModel(d, g, fs, id);
    SoughtWell(d, g, fs, fs', id, pos, r);
    MovedModel(d, g, fs, fs', id);
    ModeOf(d, g, fs', id);
  }

  lemma OpenedModel(d: seq<Block>, g: Geometry, fs: Fs, fs': Fs, id: Name, o: OpenOptions)
    requires InOrder(d, g, fs) && id in fs.records && id !in fs.open
    requires WasOpened(g, fs, fs', id, o.read, o.write, o.append) && (o.append ==> AppendsWell(g, Model(d, g, fs)[id]))
    ensures Settled(g, fs', id) && AllStore(g, fs'.chains[id])
    ensures FileModel(d, g, fs', id) == OpenedAs(FileModel(d, g, fs, id), o)
  {
    hide AllStore, Model, InOrder, Settled, AppendsWell, FileModel, OpensWell;
    FilesOf(d, g, fs, id);
    ClosedModel(d, g, fs, id);
    OpenedWell(d, g, fs, fs', id, o);
    MovedModel(d, g, fs, fs', id);
    ModeOf(d, g, fs', id);
  }

  /** What the model allows to be appended to is what opens well. */
  lemma OpenedWell(d: seq<Block>, g: Geometry, fs: Fs, fs': Fs, id: Name, o: OpenOptions)
    requires InOrder(d, g, fs) && id in fs.records && id !in fs.open
    requires WasOpened(g, fs, fs', id, o.read, o.write, o.append) && (o.append ==> AppendsWell(g, Model(d, g, fs)[id]))
    ensures Settled(g, fs', id)
  {
    hide AllStore, Model, InOrder, Settled, FileModel, ClustersFor;
    ClosedModel(d, g, fs, id);
    Grown(d, g, fs, id);
    NoClustersWhenEmpty(fs.records[id].dataLength, g);
  }

  lemma NoClustersWhenEmpty(len: nat, g: Geometry)
    requires g.Valid()
    ensures ClustersFor(len, g) == 0 <==> len == 0
  {
    LengthPositive(g);
    CeilBound(len, g.ClusterLength());
  }

  lemma ClosedModel(d: seq<Block>, g: Geometry, fs: Fs, id: Name)
    requires InOrder(d, g, fs) && id in fs.records && id !in fs.open
    ensures var f := Model(d, g, fs)[id];
            f.valid == fs.records[id].validDataLength && |f.bytes| == fs.records[id].dataLength && f.mode == None
  {
    hide Visible, AllStore, PlacedAt, ClustersFor;
  }

  // ---- one step of the file system is one step of the model -----------------------------------------

  /** What a write that the model allows can come to. */
  lemma WriteResults(d: seq<Block>, g: Geometry, fs: Fs, id: Name, x: seq<byte>)
    requires InOrder(d, g, fs) && id in fs.records && id in fs.open && WriteAllowed(g, Model(d, g, fs)[id], x)
    ensures var r := Outcome(g, d, fs, id, |x|);
            && (r == Err(WriteNotEnabled) <==> x != [] && !fs.open[id].canWrite)
            && (r.Ok? || r == Err(WriteNotEnabled) || r == Err(DiskFull))
    ensures fs.open[id].cursor <= fs.open[id].details.validDataLength
  {
    hide AllStore, Model, Settled, FileModel, Good, Geometry.Valid, Shortfall, BadTail, FreeClusters;
    OpenModel(d, g, fs, id);
    FilesOf(d, g, fs, id);
  }

  lemma WriteStep(d: seq<Block>, d': seq<Block>, g: Geometry, u: set<Spot>, fs: Fs, fs': Fs, id: Name, x: seq<byte>,
                  r: Result<()>)
    requires Sound(g, d, u, fs) && InOrder(d, g, fs) && id in fs.records && id in fs.open
    requires WriteAllowed(g, Model(d, g, fs)[id], x)
    requires OnlyStepped(fs, fs', id) && r == Outcome(g, d, fs, id, |x|)
    requires r.Ok? || r == Err(WriteNotEnabled) ==> Written(d, d', g, fs, fs', id, if r.Ok? then x else [])
    requires forall j :: j in fs.records && j != id ==> SameFile(d, d', g, fs, fs', j)
    ensures var s := Model(d, g, fs);
            var next := Next(s[id], Write(id, x));
            if !Fits(g, Room(g, fs), s[id := next.0]) then r == Err(DiskFull)
            else InOrder(d', g, fs') && Model(d', g, fs') == s[id := next.0] && next.1 == if r.Ok? then Done
                else Failed(r.error)
  {
    hide AllStore, Model, InOrder, Settled, FileModel, SameFile, Books, FileOk, Covered, Good, Geometry.Valid,
         Outcome, Written, WriteOutcome, Fits, BadTail;
    WriteFits(d, g, u, fs, id, x);
    WriteResults(d, g, fs, id, x);
    if r != Err(DiskFull) {
      OpenModel(d, g, fs, id);
      FilesOf(d, g, fs, id);
      WriteModel(d, d', g, fs, fs', id, x, r);
      ModelStep(d, d', g, fs, fs', id);
    }
  }

  lemma ReadStep(d: seq<Block>, g: Geometry, fs: Fs, fs': Fs, id: Name, n: nat, r: Result<Option<seq<byte>>>)
    requires InOrder(d, g, fs) && id in fs.records && id in fs.open
    requires OnlyStepped(fs, fs', id) && WasRead(d, g, fs, fs', id, n, r)
    requires forall j :: j in fs.records && j != id ==> SameFile(d, d, g, fs, fs', j)
    ensures var s := Model(d, g, fs);
            s[id].mode.Some? &&
            var next := Next(s[id], Read(id, n));
            InOrder(d, g, fs') && Model(d, g, fs') == s[id := next.0] && next.1 == if r.Ok? then Got(r.value)
                else Failed(r.error)
  {
    hide AllStore, Model, InOrder, Settled, FileModel, SameFile, Books, FileOk, Covered, Good, Geometry.Valid,
         WasRead;
    FilesOf(d, g, fs, id);
    OpenModel(d, g, fs, id);
    ReadModel(d, g, fs, fs', id, n, r);
    ModelStep(d, d, g, fs, fs', id);
  }

  lemma SeekStep(d: seq<Block>, g: Geometry, fs: Fs, fs': Fs, id: Name, pos: nat, r: Result<()>)
    requires InOrder(d, g, fs) && SeekAllowed(g, Model(d, g, fs), id, pos)
    requires id in fs.records && id in fs.open && OnlyStepped(fs, fs', id) && WasSought(d, g, fs, fs', id, pos, r)
    requires forall j :: j in fs.records && j != id ==> SameFile(d, d, g, fs, fs', j)
    ensures var s := Model(d, g, fs);
            s[id].mode.Some? &&
            var next := Next(s[id], Seek(id, pos));
            InOrder(d, g, fs') && Model(d, g, fs') == s[id := next.0] && next.1 == if r.Ok? then Done else Failed(r.error)
  {
    hide AllStore, Model, InOrder, Settled, FileModel, SameFile, Books, FileOk, Covered, Good, Geometry.Valid,
         WasSought, SeekAllowed;
    FilesOf(d, g, fs, id);
    OpenModel(d, g, fs, id);
    SeekModel(d, g, fs, fs', id, pos, r);
    ModelStep(d, d, g, fs, fs', id);
  }

  lemma OpenStep(d: seq<Block>, g: Geometry, fs: Fs, fs': Fs, id: Name, o: OpenOptions)
    requires InOrder(d, g, fs) && id in fs.records && id !in fs.open
    requires WasOpened(g, fs, fs', id, o.read, o.write, o.append)
    requires o.append ==> AppendsWell(g, Model(d, g, fs)[id])
    requires forall j :: j in fs.records && j != id ==> SameFile(d, d, g, fs, fs', j)
    ensures var s := Model(d, g, fs);
            InOrder(d, g, fs') && Model(d, g, fs') == s[id := OpenedAs(s[id], o)]
  {
    hide AllStore, Model, InOrder, Settled, FileModel, SameFile, Books, FileOk, Covered, Good, Geometry.Valid,
         OpensWell, AppendsWell;
    FilesOf(d, g, fs, id);
    OpenedModel(d, g, fs, fs', id, o);
    ModelStep(d, d, g, fs, fs', id);
  }

  /** Flushing or closing changes nothing a reader could see. */
  lemma SavedKeeps(d: seq<Block>, d': seq<Block>, g: Geometry, fs: Fs, fs': Fs, id: Name)
    requires InOrder(d, g, fs) && id in fs.records && SameContents(d, d', g, fs, fs', id)
    requires SamePlace(fs.records[id], fs'.records[id])
    requires id in fs'.open ==> id in fs.open && fs'.open[id].cursor == fs.open[id].cursor && SameMode(fs, fs', id)
    ensures AllStore(g, fs'.chains[id])
    ensures FileModel(d', g, fs', id)
            == FileModel(d, g, fs, id).(mode := if id in fs'.open then FileModel(d, g, fs, id).mode else None)
  {
    hide Visible, AllStore, PlacedAt, ClustersFor;
  }

  lemma SaveStep(d: seq<Block>, d': seq<Block>, g: Geometry, fs: Fs, fs': Fs, id: Name)
    requires InOrder(d, g, fs) && id in fs.records && fs'.records.Keys == fs.records.Keys && Good(d', g)
    requires SameContents(d, d', g, fs, fs', id) && SamePlace(fs.records[id], fs'.records[id])
    requires id in fs'.open ==> id in fs.open && fs'.open[id].cursor == fs.open[id].cursor && SameMode(fs, fs', id)
    requires Settled(g, fs', id)
    requires forall j :: j in fs.records && j != id ==> SameFile(d, d', g, fs, fs', j)
    ensures var s := Model(d, g, fs);
            && InOrder(d', g, fs')
            && Model(d', g, fs') == s[id := s[id].(mode := if id in fs'.open then s[id].mode else None)]
  {
    hide AllStore, Model, InOrder, Settled, FileModel, SameFile, Books, FileOk, Covered, Good, Geometry.Valid,
         SameContents, SamePlace;
    FilesOf(d, g, fs, id);
    SavedKeeps(d, d', g, fs, fs', id);
    ModelStep(d, d', g, fs, fs', id);
  }

  /** Flushing does not move the entry set. */
  lemma FlushedPlace(g: Geometry, d: seq<Block>, u: set<Spot>, fs: Fs, id: Name)
    requires Sound(g, d, u, fs) && id in fs.open && id in fs.records
    ensures SamePlace(fs.records[id], Flushed(fs, id))
  {
    hide Books, Held, Covered, ClustersFor;
  }

  lemma FlushStep(d: seq<Block>, d': seq<Block>, g: Geometry, u: set<Spot>, fs: Fs, id: Name, t: Stamp)
    requires Sound(g, d, u, fs) && InOrder(d, g, fs) && id in fs.records && id in fs.open && Good(d', g)
    requires Settled(g, Saved(fs, id), id) && SameContents(d, d', g, fs, Saved(fs, id), id)
    requires forall j :: j in fs.records && j != id ==> SameFile(d, d', g, fs, Saved(fs, id), j)
    ensures var s := Model(d, g, fs);
            s[id].mode.Some? &&
            var next := Next(s[id], Flush(id, t));
            InOrder(d', g, Saved(fs, id)) && Model(d', g, Saved(fs, id)) == s[id := next.0] && next.1 == Done
  {
    hide AllStore, Model, InOrder, Settled, FileModel, SameFile, Books, FileOk, Covered, Good, Geometry.Valid,
         SameContents, SamePlace, Sound, Flushed;
    FlushedPlace(g, d, u, fs, id);
    OpenModel(d, g, fs, id);
    SaveStep(d, d', g, fs, Saved(fs, id), id);
  }

  lemma CloseStep(d: seq<Block>, d': seq<Block>, g: Geometry, u: set<Spot>, fs: Fs, id: Name, t: Stamp)
    requires Sound(g, d, u, fs) && InOrder(d, g, fs) && id in fs.records && id in fs.open && Good(d', g)
    requires Settled(g, Closed(fs, id), id) && SameContents(d, d', g, fs, Closed(fs, id), id)
    requires forall j :: j in fs.records && j != id ==> SameFile(d, d', g, fs, Closed(fs, id), j)
    ensures var s := Model(d, g, fs);
            s[id].mode.Some? &&
            var next := Next(s[id], Op.Close(id, t));
            InOrder(d', g, Closed(fs, id)) && Model(d', g, Closed(fs, id)) == s[id := next.0] && next.1 == Done
  {
    hide AllStore, Model, InOrder, Settled, FileModel, SameFile, Books, FileOk, Covered, Good, Geometry.Valid,
         SameContents, SamePlace, Sound, Flushed;
    FlushedPlace(g, d, u, fs, id);
    OpenModel(d, g, fs, id);
    SaveStep(d, d', g, fs, Closed(fs, id), id);
  }

  lemma EmptyModel(d: seq<Block>, g: Geometry, fs: Fs, id: Name)
    requires g.Valid() && Good(d, g) && Settled(g, fs, id) && id !in fs.open && fs.chains[id] == []
    requires DetailsOf(fs, id).dataLength == 0
    ensures AllStore(g, fs.chains[id])
    ensures FileModel(d, g, fs, id) == AFile([], 0, None, fs.records[id].location, fs.records[id].secondaryCount)
  {
    hide PlacedAt, ClustersFor;
  }

  lemma CreateStep(d: seq<Block>, d': seq<Block>, g: Geometry, fs: Fs, id: Name, f: FileDetails)
    requires InOrder(d, g, fs) && id !in fs.records && id !in fs.open && IsEmpty(f) && Good(d', g)
    requires Settled(g, Created(fs, id, f), id)
    requires forall j :: j in fs.records ==> SameFile(d, d', g, fs, Created(fs, id, f), j)
    ensures InOrder(d', g, Created(fs, id, f))
    ensures Model(d', g, Created(fs, id, f)) == Model(d, g, fs)[id := AFile([], 0, None, f.location, f.secondaryCount)]
  {
    hide AllStore, Model, Settled, FileModel, SameFile, Good, Geometry.Valid;
    EmptyModel(d', g, Created(fs, id, f), id);
    ModelStep(d, d', g, fs, Created(fs, id, f), id);
  }

  lemma TruncateStep(d: seq<Block>, d': seq<Block>, g: Geometry, fs: Fs, id: Name)
    requires InOrder(d, g, fs) && id in fs.records && id in fs.chains && id !in fs.open
    requires Good(d', g) && Settled(g, Emptied(fs, id), id)
    requires forall j :: j in fs.records && j != id ==> SameFile(d, d', g, fs, Emptied(fs, id), j)
    ensures var s := Model(d, g, fs);
            InOrder(d', g, Emptied(fs, id)) && Model(d', g, Emptied(fs, id)) == s[id := Truncated(s[id])]
  {
    hide AllStore, Model, Settled, FileModel, SameFile, Good, Geometry.Valid, InOrder;
    FilesOf(d, g, fs, id);
    EmptyModel(d', g, Emptied(fs, id), id);
    PlaceKept(d, g, fs, id);
    ModelStep(d, d', g, fs, Emptied(fs, id), id);
  }

  lemma PlaceKept(d: seq<Block>, g: Geometry, fs: Fs, id: Name)
    requires InOrder(d, g, fs) && id in fs.records && id !in fs.open
    ensures var f := Model(d, g, fs)[id];
            f.location == fs.records[id].location && f.secondaryCount == fs.records[id].secondaryCount && f.mode == None
  {
    hide Visible, AllStore, PlacedAt, ClustersFor;
  }

  lemma RemoveStep(d: seq<Block>, d': seq<Block>, g: Geometry, fs: Fs, fs': Fs, id: Name)
    requires InOrder(d, g, fs) && id in fs.records && Good(d', g) && fs'.records.Keys == fs.records.Keys - {id}
    requires forall j :: j in fs.records && j != id ==> SameFile(d, d', g, fs, fs', j)
    ensures InOrder(d', g, fs') && Model(d', g, fs') == Model(d, g, fs) - {id}
  {
    hide AllStore, Model, Settled, FileModel, SameFile, Good, Geometry.Valid;
    ModelStep(d, d', g, fs, fs', id);
  }
}
