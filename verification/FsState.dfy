/** Many files on one volume, as a value: who owns which cluster, what each file's contents are, and
    what the steps of the file system do to all of them. The directory is held as a map from a file's
    identity to what its entry set records. */
module FsState {
  import opened Allocator
  import opened Bytes
  import opened Chains
  import opened ChainStore
  import opened Contents
  import opened Cursor
  import opened Disk
  import opened File
  import opened FileData
  import opened Names
  import opened Results
  import opened Spots
  import opened Touched
  import opened Volume

  // ---- ownership, on values -----------------------------------------------------------

  /** A cluster is allocated exactly when the system or one file owns it: `owner` names the one
      file, and that file's chain contains it. So no two files share a cluster, and none is lost. */
  ghost predicate Ownership(alloc: set<nat>, system: set<nat>, chains: map<Name, seq<nat>>, owner: map<nat, Name>) {
    && alloc == system + owner.Keys && system !! owner.Keys
    && (forall c :: c in owner ==> owner[c] in chains && c in chains[owner[c]])
    && (forall id, c {:trigger chains[id], c in owner} :: id in chains && c in chains[id] ==> c in owner && owner[c] == id)
  }

  lemma OwnershipApart(alloc: set<nat>, system: set<nat>, chains: map<Name, seq<nat>>, owner: map<nat, Name>, a: Name,
                       b: Name)
    requires Ownership(alloc, system, chains, owner) && a in chains && b in chains && a != b
    ensures forall c :: c in chains[b] ==> c in alloc && c !in chains[a] && c !in system
  {
  }

  /** No two files share a cluster. */
  lemma NoneShared(alloc: set<nat>, system: set<nat>, chains: map<Name, seq<nat>>, owner: map<nat, Name>)
    requires Ownership(alloc, system, chains, owner)
    ensures forall a, b, c :: a in chains && b in chains && c in chains[a] && c in chains[b] ==> a == b
  {
    forall a, b, c | a in chains && b in chains && c in chains[a] && c in chains[b] ensures a == b {
      assert c in owner;
    }
  }

  lemma OwnershipGrow(alloc: set<nat>, system: set<nat>, chains: map<Name, seq<nat>>, owner: map<nat, Name>, id: Name,
                      more: seq<nat>)
    requires Ownership(alloc, system, chains, owner) && id in chains && SetOf(more) !! alloc
    ensures Ownership(alloc + SetOf(more), system, chains[id := chains[id] + more], owner + map c | c in SetOf(more) :: id)
  {
  }

  lemma OwnershipShrink(alloc: set<nat>, system: set<nat>, chains: map<Name, seq<nat>>, owner: map<nat, Name>, id: Name)
    requires Ownership(alloc, system, chains, owner) && id in chains
    ensures Ownership(alloc - SetOf(chains[id]), system, chains[id := []], owner - SetOf(chains[id]))
  {
  }

  lemma OwnershipAdd(alloc: set<nat>, system: set<nat>, chains: map<Name, seq<nat>>, owner: map<nat, Name>, id: Name)
    requires Ownership(alloc, system, chains, owner) && id !in chains
    ensures Ownership(alloc, system, chains[id := []], owner)
  {
  }

  lemma OwnershipDrop(alloc: set<nat>, system: set<nat>, chains: map<Name, seq<nat>>, owner: map<nat, Name>, id: Name)
    requires Ownership(alloc, system, chains, owner) && id in chains && chains[id] == []
    ensures Ownership(alloc, system, chains - {id}, owner)
  {
  }

  /** Ownership is exact, the bitmap's own clusters are the system's, and files hold only clusters
      that can hold data. */
  ghost predicate Books(alloc: set<nat>, g: Geometry, system: set<nat>, chains: map<Name, seq<nat>>,
                        owner: map<nat, Name>)
    requires g.Valid()
  {
    && Ownership(alloc, system, chains, owner)
    && (forall c: nat :: FIRST_CLUSTER_ID <= c < g.BitEnd() && !g.Stores(c) ==> c in system)
    && (forall id :: id in chains ==> AllStore(g, chains[id]))
  }

  lemma BooksFacts(alloc: set<nat>, g: Geometry, system: set<nat>, chains: map<Name, seq<nat>>, owner: map<nat, Name>)
    requires g.Valid() && Books(alloc, g, system, chains, owner)
    ensures BitmapHeld(alloc, g)
    ensures forall id :: id in chains ==> AllStore(g, chains[id]) && SetOf(chains[id]) <= alloc
  {
  }

  /** The books after a file has grown. */
  lemma BooksGrow(v: Vol, v': Vol, g: Geometry, system: set<nat>, chains: map<Name, seq<nat>>, owner: map<nat, Name>,
                  id: Name, cs': seq<nat>)
    requires g.Valid() && Books(v.alloc, g, system, chains, owner) && id in chains
    requires OnlyOwn(v, v', chains[id], cs') && AllStore(g, cs')
    ensures chains[id] <= cs'
    ensures Books(v'.alloc, g, system, chains[id := cs'], owner + map c | c in SetOf(cs'[|chains[id]|..]) :: id)
    ensures forall j :: j in chains && j != id ==> Untouched(v, v', chains[j])
    ensures SystemKept(v, v', system)
  {
    GrowthSystem(v, v', g, system, chains, owner, id, cs');
    var more := cs'[|chains[id]|..];
    assert cs' == chains[id] + more;
    OwnershipGrow(v.alloc, system, chains, owner, id, more);
    forall j | j in chains && j != id ensures Untouched(v, v', chains[j]) {
      OwnershipApart(v.alloc, system, chains, owner, id, j);
      GrowthUntouched(v, v', chains[id], cs', chains[j]);
    }
  }

  lemma BooksAdd(alloc: set<nat>, g: Geometry, system: set<nat>, chains: map<Name, seq<nat>>, owner: map<nat, Name>,
                 id: Name)
    requires g.Valid() && Books(alloc, g, system, chains, owner) && id !in chains
    ensures Books(alloc, g, system, chains[id := []], owner)
  {
    OwnershipAdd(alloc, system, chains, owner, id);
  }

  lemma BooksShrink(v: Vol, v': Vol, g: Geometry, system: set<nat>, chains: map<Name, seq<nat>>, owner: map<nat, Name>,
                    id: Name)
    requires g.Valid() && Books(v.alloc, g, system, chains, owner) && id in chains && Freed(v, v', chains[id])
    ensures Books(v'.alloc, g, system, chains[id := []], owner - SetOf(chains[id]))
    ensures forall j :: j in chains && j != id ==> Untouched(v, v', chains[j])
    ensures SystemKept(v, v', system)
  {
    FreeSystem(v, v', system, chains, owner, id);
    OwnershipShrink(v.alloc, system, chains, owner, id);
    forall j | j in chains && j != id ensures Untouched(v, v', chains[j]) {
      OwnershipApart(v.alloc, system, chains, owner, id, j);
      FreeUntouched(v, v', chains[id], chains[j]);
    }
  }

  lemma BooksDrop(alloc: set<nat>, g: Geometry, system: set<nat>, chains: map<Name, seq<nat>>, owner: map<nat, Name>,
                  id: Name)
    requires g.Valid() && Books(alloc, g, system, chains, owner) && id in chains && chains[id] == []
    ensures Books(alloc, g, system, chains - {id}, owner)
  {
    OwnershipDrop(alloc, system, chains, owner, id);
  }

  // ---- bystanders -------------------------------------------------------------------------

  /** Nothing about the clusters `cs` changed from `v` to `v'`. */
  ghost predicate Untouched(v: Vol, v': Vol, cs: seq<nat>) {
    && |v'.fat| == |v.fat| && |v'.data| == |v.data|
    && forall c :: c in cs ==>
         && (c < |v.fat| ==> v'.fat[c] == v.fat[c])
         && (c < |v.data| ==> v'.data[c] == v.data[c])
         && (c in v.alloc ==> c in v'.alloc)
  }

  /** Nothing about the system's clusters changed from `v` to `v'`. */
  ghost predicate SystemKept(v: Vol, v': Vol, system: set<nat>) {
    && |v'.fat| == |v.fat| && |v'.data| == |v.data|
    && forall c :: c in system ==>
         && (c < |v.fat| ==> v'.fat[c] == v.fat[c])
         && (c < |v.data| ==> v'.data[c] == v.data[c])
  }

  lemma GrowthSystem(v: Vol, v': Vol, g: Geometry, system: set<nat>, chains: map<Name, seq<nat>>,
                     owner: map<nat, Name>, id: Name, cs': seq<nat>)
    requires Ownership(v.alloc, system, chains, owner) && id in chains && OnlyOwn(v, v', chains[id], cs')
    ensures SystemKept(v, v', system)
  {
    assert cs' == chains[id] + cs'[|chains[id]|..];
    assert forall c :: c in cs' ==> c in chains[id] || c in SetOf(cs'[|chains[id]|..]);
  }

  lemma FreeSystem(v: Vol, v': Vol, system: set<nat>, chains: map<Name, seq<nat>>, owner: map<nat, Name>, id: Name)
    requires Ownership(v.alloc, system, chains, owner) && id in chains && Freed(v, v', chains[id])
    ensures SystemKept(v, v', system)
  {
  }

  /** A file that only changed itself left alone every file it shares no cluster with. */
  lemma GrowthUntouched(v: Vol, v': Vol, mine: seq<nat>, mine': seq<nat>, cs: seq<nat>)
    requires OnlyOwn(v, v', mine, mine') && forall c :: c in cs ==> c in v.alloc && c !in mine
    ensures Untouched(v, v', cs)
  {
    assert mine' == mine + mine'[|mine|..];
    assert forall c :: c in mine' ==> c in mine || c in SetOf(mine'[|mine|..]);
  }

  lemma FreeUntouched(v: Vol, v': Vol, mine: seq<nat>, cs: seq<nat>)
    requires Freed(v, v', mine) && forall c :: c in cs ==> c !in mine
    ensures Untouched(v, v', cs)
  {
  }

  lemma HeldKept(v: Vol, v': Vol, g: Geometry, chain: StoredChain, noFat: bool, cs: seq<nat>)
    requires g.Valid() && Held(v, g, chain, noFat, cs) && Untouched(v, v', cs)
    ensures Held(v', g, chain, noFat, cs)
  {
    assert forall i :: 0 <= i < |cs| ==> cs[i] in cs;
    RepFrame(v.fat, v'.fat, chain, noFat, cs);
  }

  lemma PersistedKept(v: Vol, v': Vol, g: Geometry, f: FileDetails, cs: seq<nat>)
    requires g.Valid() && Persisted(v.fat, g, f, cs) && Untouched(v, v', cs)
    ensures Persisted(v'.fat, g, f, cs)
  {
    assert forall i :: 0 <= i < |cs| ==> cs[i] in cs;
  }

  lemma VisibleKept(d: seq<Block>, d': seq<Block>, g: Geometry, cs: seq<nat>, f: FileDetails)
    requires g.Valid() && Good(d, g) && Good(d', g)
    requires AllStore(g, cs) && |cs| == ClustersFor(f.dataLength, g) && Untouched(Abs(d, g), Abs(d', g), cs)
    ensures Visible(d', g, cs, f) == Visible(d, g, cs, f)
  {
    LengthPositive(g);
    StoresBacked(d, g, cs);
    RawFrame(Abs(d, g).data, Abs(d', g).data, cs, g.ClusterLength());
  }

  lemma HeldAllStore(v: Vol, g: Geometry, chain: StoredChain, noFat: bool, cs: seq<nat>)
    requires g.Valid() && Held(v, g, chain, noFat, cs)
    ensures AllStore(g, cs)
  {
  }

  // ---- the state of all files ------------------------------------------------------------

  /** An open file: what its handle holds. */
  datatype Handle = Handle(
    details: FileDetails,
    chain: StoredChain,
    cursor: nat,
    current: nat,
    remaining: nat,
    inserted: set<Spot>,  // what was written since the last flush
    dirty: bool,         // the entry set is to be rewritten
    canRead: bool,
    canWrite: bool)

  datatype Fs = Fs(
    system: set<nat>,                 // clusters of the bitmap, the up-case table and directories
    records: map<Name, FileDetails>,   // what the directory entry set of each file records
    open: map<Name, Handle>,           // the open files, one handle each
    chains: map<Name, seq<nat>>,       // the clusters of each file
    owner: map<nat, Name>)             // the file each non-system cluster belongs to

  /** The file stands for its clusters: by its handle when it is open, by its record when not. */
  ghost predicate FileOk(g: Geometry, v: Vol, fs: Fs, id: Name)
    requires g.Valid() && id in fs.records && id in fs.chains
  {
    if id in fs.open then
      && Held(v, g, fs.open[id].chain, fs.open[id].details.noFat, fs.chains[id])
      && Current(g, fs.records[id], fs.open[id].details, fs.open[id].dirty, fs.chains[id])
      && Own(g, fs.chains[id], fs.open[id].inserted)
    else Persisted(v.fat, g, fs.records[id], fs.chains[id])
  }

  /** The handle knows where the entry set is; and unless the set is marked for rewriting, what it
      records of the file is up to date. */
  ghost predicate Current(g: Geometry, record: FileDetails, f: FileDetails, dirty: bool, cs: seq<nat>)
    requires g.Valid()
  {
    && SamePlace(record, f)
    && (!dirty && |cs| == ClustersFor(f.dataLength, g) ==>
      record == f.(firstCluster := record.firstCluster) && (cs != [] ==> record.firstCluster == cs[0]))
  }

  lemma CurrentKept(g: Geometry, record: FileDetails, f: FileDetails, f': FileDetails, dirty: bool, dirty': bool,
                    cs: seq<nat>, cs': seq<nat>)
    requires g.Valid() && Current(g, record, f, dirty, cs) && |cs| == ClustersFor(f.dataLength, g) && cs <= cs'
    requires SamePlace(f, f') && (!dirty' ==> f' == f && !dirty)
    ensures Current(g, record, f', dirty', cs')
  {
  }

  ghost function DetailsOf(fs: Fs, id: Name): FileDetails
    requires id in fs.records
  {
    if id in fs.open then fs.open[id].details else fs.records[id]
  }

  /** Wherever the device is behind, an open file has written there since its last flush. */
  ghost predicate Covered(unsaved: set<Spot>, fs: Fs) {
    forall s :: s in unsaved ==> exists id :: id in fs.open && s in fs.open[id].inserted
  }

  /** Holds after every operation, also a failed one. */
  ghost predicate Sound(g: Geometry, d: seq<Block>, unsaved: set<Spot>, fs: Fs) {
    && g.Valid() && Good(d, g)
    && fs.chains.Keys == fs.records.Keys && fs.open.Keys <= fs.records.Keys
    && Books(Abs(d, g).alloc, g, fs.system, fs.chains, fs.owner)
    && (forall id :: id in fs.records ==> FileOk(g, Abs(d, g), fs, id))
    && Covered(unsaved, fs)
  }

  /** The file is as it should be between successful operations. */
  ghost predicate Settled(g: Geometry, fs: Fs, id: Name) {
    g.Valid() && id in fs.records && id in fs.chains &&
    var f := DetailsOf(fs, id);
    && |fs.chains[id]| == ClustersFor(f.dataLength, g)
    && f.validDataLength <= f.dataLength
    && (id in fs.open ==>
          && fs.open[id].cursor <= f.dataLength
          && PlacedAt(g, fs.chains[id], fs.open[id].cursor, fs.open[id].current, fs.open[id].remaining))
  }

  /** The invariant over runs of successful operations. */
  ghost predicate AllSettled(g: Geometry, fs: Fs) {
    forall id :: id in fs.records ==> Settled(g, fs, id)
  }

  /** The contents of a file as a reader sees them. */
  ghost function ContentsOf(d: seq<Block>, g: Geometry, fs: Fs, id: Name): seq<byte>
    requires g.Valid() && Good(d, g) && id in fs.records && id in fs.chains
    requires AllStore(g, fs.chains[id]) && Settled(g, fs, id)
  {
    Visible(d, g, fs.chains[id], DetailsOf(fs, id))
  }

  /** File `id` of `fs` is in `fs'` as it was: same clusters, same lengths, same contents. */
  ghost predicate SameFile(d: seq<Block>, d': seq<Block>, g: Geometry, fs: Fs, fs': Fs, id: Name) {
    && g.Valid() && Good(d, g) && Good(d', g)
    && id in fs.records && id in fs.chains && AllStore(g, fs.chains[id])
    && id in fs'.records && id in fs'.chains && fs'.chains[id] == fs.chains[id]
    && fs'.records[id] == fs.records[id]
    && (id in fs'.open <==> id in fs.open) && (id in fs.open ==> fs'.open[id] == fs.open[id])
    && (Settled(g, fs, id) ==> ContentsOf(d', g, fs', id) == ContentsOf(d, g, fs, id))
  }

  /** File `id` reads the same in both states, and has the same clusters and valid length. */
  ghost predicate SameContents(d: seq<Block>, d': seq<Block>, g: Geometry, fs: Fs, fs': Fs, id: Name) {
    && Settled(g, fs, id) && Settled(g, fs', id) && Good(d, g) && Good(d', g)
    && AllStore(g, fs.chains[id]) && fs'.chains[id] == fs.chains[id]
    && DetailsOf(fs', id).validDataLength == DetailsOf(fs, id).validDataLength
    && ContentsOf(d', g, fs', id) == ContentsOf(d, g, fs, id)
  }

  lemma SameContentsAfter(d: seq<Block>, d1: seq<Block>, d2: seq<Block>, g: Geometry, fs: Fs, fs': Fs, id: Name)
    requires SameFile(d, d1, g, fs, fs, id) && SameContents(d1, d2, g, fs, fs', id)
    ensures SameContents(d, d2, g, fs, fs', id)
  {
    hide Visible, PlacedAt, ClustersFor, AllStore;
  }

  lemma KeptFile(d: seq<Block>, d': seq<Block>, g: Geometry, fs: Fs, fs': Fs, id: Name)
    requires g.Valid() && Good(d, g) && Good(d', g)
    requires id in fs.records && id in fs.chains && AllStore(g, fs.chains[id]) && FileOk(g, Abs(d, g), fs, id)
    requires id in fs'.records && id in fs'.chains && fs'.chains[id] == fs.chains[id]
    requires fs'.records[id] == fs.records[id]
    requires (id in fs'.open <==> id in fs.open) && (id in fs.open ==> fs'.open[id] == fs.open[id])
    requires Untouched(Abs(d, g), Abs(d', g), fs.chains[id])
    ensures SameFile(d, d', g, fs, fs', id) && FileOk(g, Abs(d', g), fs', id)
  {
    var v, v', cs := Abs(d, g), Abs(d', g), fs.chains[id];
    if id in fs.open {
      HeldKept(v, v', g, fs.open[id].chain, fs.open[id].details.noFat, cs);
    } else {
      PersistedKept(v, v', g, fs.records[id], cs);
    }
    if Settled(g, fs, id) {
      VisibleKept(d, d', g, cs, DetailsOf(fs, id));
    }
  }

  // ---- what the steps do to the state -------------------------------------------------------

  /** The state after open file `id` has grown to the chain `cs` and its handle reads `h`. */
  ghost function Grow(fs: Fs, id: Name, h: Handle, cs: seq<nat>): Fs
    requires id in fs.chains && fs.chains[id] <= cs
  {
    fs.(open := fs.open[id := h],
        chains := fs.chains[id := cs],
        owner := fs.owner + map c | c in SetOf(cs[|fs.chains[id]|..]) :: id)
  }

  /** Only what is known of open file `id` moved on. */
  ghost predicate OnlyStepped(fs: Fs, fs': Fs, id: Name) {
    && fs'.system == fs.system && fs'.records == fs.records
    && id in fs.open && id in fs'.open && fs'.open == fs.open[id := fs'.open[id]]
    && id in fs.chains && id in fs'.chains && fs'.chains == fs.chains[id := fs'.chains[id]]
  }

  /** `fs'` differs from `fs` in file `id` alone. */
  ghost predicate OthersSame(fs: Fs, fs': Fs, id: Name) {
    && fs'.chains.Keys == fs'.records.Keys && fs'.open.Keys <= fs'.records.Keys
    && fs.chains.Keys == fs.records.Keys
    && (forall j :: j in fs'.records && j != id ==> j in fs.records)
    && forall j :: j in fs.records && j != id ==>
         && j in fs'.records && j in fs'.chains
         && fs'.chains[j] == fs.chains[j] && fs'.records[j] == fs.records[j]
         && (j in fs'.open <==> j in fs.open) && (j in fs.open ==> fs'.open[j] == fs.open[j])
  }

  /** The maps agree but for `id`. */
  ghost predicate SameBut<T(!new)>(m: map<Name, T>, m': map<Name, T>, id: Name) {
    forall j :: j != id ==> (j in m' <==> j in m) && (j in m ==> m'[j] == m[j])
  }

  /** Recording, opening or changing one file leaves the others' entries in the state alone. */
  lemma OneStepped(g: Geometry, d: seq<Block>, u: set<Spot>, fs: Fs, fs': Fs, id: Name)
    requires Sound(g, d, u, fs) && id in fs'.records && id in fs'.chains
    requires SameBut(fs.records, fs'.records, id) && SameBut(fs.chains, fs'.chains, id) && SameBut(fs.open, fs'.open, id)
    ensures OthersSame(fs, fs', id)
  {
    hide Books, FileOk, Covered, Good, Geometry.Valid;
    assert forall j :: j in fs'.chains <==> j in fs'.records;
    assert fs'.chains.Keys == fs'.records.Keys;
  }

  /** A step of file `id` that keeps the books, and leaves the clusters of all other files alone,
      keeps the whole state sound and every other file as it was. */
  lemma StepKeeps(d: seq<Block>, d': seq<Block>, g: Geometry, u: set<Spot>, u': set<Spot>, fs: Fs, fs': Fs, id: Name)
    requires g.Valid() && Good(d, g) && Good(d', g) && Sound(g, d, u, fs)
    requires OthersSame(fs, fs', id) && Books(Abs(d', g).alloc, g, fs'.system, fs'.chains, fs'.owner)
    requires forall j :: j in fs.chains && j != id ==> Untouched(Abs(d, g), Abs(d', g), fs.chains[j])
    requires id in fs'.records ==> FileOk(g, Abs(d', g), fs', id)
    requires Covered(u', fs')
    ensures Sound(g, d', u', fs')
    ensures forall j :: j in fs.records && j != id ==> SameFile(d, d', g, fs, fs', j)
  {
    hide Books, Held, Untouched, Abs, SameFile, Visible, Settled, FileOk, Covered;
    BooksFacts(Abs(d, g).alloc, g, fs.system, fs.chains, fs.owner);
    forall j | j in fs.records && j != id
      ensures SameFile(d, d', g, fs, fs', j) && FileOk(g, Abs(d', g), fs', j)
    {
      KeptFile(d, d', g, fs, fs', j);
    }
    forall j | j in fs'.records ensures FileOk(g, Abs(d', g), fs', j) {
      assert j != id ==> j in fs.records;
    }
  }

  /** A step of one open file, whatever its outcome. */
  lemma GrowKeeps(d: seq<Block>, d': seq<Block>, g: Geometry, u: set<Spot>, u': set<Spot>, fs: Fs, id: Name, h: Handle,
                  cs: seq<nat>)
    requires g.Valid() && Good(d, g) && Good(d', g)
    requires Sound(g, d, u, fs) && id in fs.open
    requires OnlyOwn(Abs(d, g), Abs(d', g), fs.chains[id], cs)
    requires Held(Abs(d', g), g, h.chain, h.details.noFat, cs)
    requires Current(g, fs.records[id], h.details, h.dirty, cs)
    requires fs.open[id].inserted <= h.inserted && u' <= u + h.inserted && Own(g, cs, h.inserted)
    ensures fs.chains[id] <= cs
    ensures Sound(g, d', u', Grow(fs, id, h, cs))
    ensures forall j :: j in fs.records && j != id ==> SameFile(d, d', g, fs, Grow(fs, id, h, cs), j)
    ensures SystemKept(Abs(d, g), Abs(d', g), fs.system)
  {
    hide Books, Held, OnlyOwn, SystemKept, Untouched, Abs, SameFile, Settled, Covered, Own, Current;
    HeldAllStore(Abs(d', g), g, h.chain, h.details.noFat, cs);
    BooksGrow(Abs(d, g), Abs(d', g), g, fs.system, fs.chains, fs.owner, id, cs);
    CoveredGrow(u, u', fs, Grow(fs, id, h, cs), id);
    StepKeeps(d, d', g, u, u', fs, Grow(fs, id, h, cs), id);
  }

  /** Bytes changed in clusters of the system alone: all files are as they were. */
  lemma SystemWritten(d: seq<Block>, d': seq<Block>, g: Geometry, u: set<Spot>, u': set<Spot>, fs: Fs, dir: seq<nat>)
    requires g.Valid() && Good(d, g) && Good(d', g) && Sound(g, d, u, fs) && Covered(u', fs)
    requires OnlyData(Abs(d, g), Abs(d', g), dir) && forall c :: c in dir ==> c in fs.system
    ensures Sound(g, d', u', fs)
    ensures forall j :: j in fs.records ==> SameFile(d, d', g, fs, fs, j)
  {
    hide Books, Held, Abs, SameFile, Settled, FileOk, Covered, OnlyData, Untouched;
    BooksFacts(Abs(d, g).alloc, g, fs.system, fs.chains, fs.owner);
    DataKeepsAlloc(Abs(d, g), Abs(d', g), dir);
    forall j | j in fs.records
      ensures SameFile(d, d', g, fs, fs, j) && FileOk(g, Abs(d', g), fs, j)
    {
      DirUntouched(Abs(d, g), Abs(d', g), g, fs.system, fs.chains, fs.owner, dir, j);
      KeptFile(d, d', g, fs, fs, j);
    }
  }

  lemma DataKeepsAlloc(v: Vol, v': Vol, dir: seq<nat>)
    requires OnlyData(v, v', dir)
    ensures v'.alloc == v.alloc && v'.fat == v.fat
  {
  }

  lemma DirUntouched(v: Vol, v': Vol, g: Geometry, system: set<nat>, chains: map<Name, seq<nat>>,
                     owner: map<nat, Name>, dir: seq<nat>, id: Name)
    requires g.Valid() && Books(v.alloc, g, system, chains, owner) && id in chains
    requires OnlyData(v, v', dir) && forall c :: c in dir ==> c in system
    ensures Untouched(v, v', chains[id])
  {
    assert forall c :: c in chains[id] ==> c in owner && c !in system;
  }

  lemma SelfUntouched(v: Vol, fs: Fs)
    ensures forall j :: j in fs.chains ==> Untouched(v, v, fs.chains[j])
  {
  }

  /** A record without clusters. */
  predicate IsEmpty(f: FileDetails) { f.firstCluster == NO_CLUSTER_ID && f.dataLength == 0 && f.validDataLength == 0 }

  lemma NoClusters(v: Vol, g: Geometry, f: FileDetails)
    requires g.Valid() && IsEmpty(f)
    ensures Persisted(v.fat, g, f, [])
    ensures ClustersFor(0, g) == 0
  {
    LengthPositive(g);
    CeilBound(0, g.ClusterLength());
  }

  /** The state after a new, empty file has been recorded. */
  ghost function Created(fs: Fs, id: Name, f: FileDetails): Fs {
    fs.(records := fs.records[id := f], chains := fs.chains[id := []])
  }

  lemma CreateKeeps(d: seq<Block>, g: Geometry, u: set<Spot>, fs: Fs, id: Name, f: FileDetails)
    requires g.Valid() && Good(d, g) && Sound(g, d, u, fs) && id !in fs.records && IsEmpty(f)
    ensures Sound(g, d, u, Created(fs, id, f)) && Settled(g, Created(fs, id, f), id)
    ensures forall j :: j in fs.records && j != id ==> SameFile(d, d, g, fs, Created(fs, id, f), j)
  {
    hide Abs, SameFile, Persisted, Held, Visible, ClustersFor, Books, Untouched, OthersSame, Covered;
    BooksAdd(Abs(d, g).alloc, g, fs.system, fs.chains, fs.owner, id);
    SelfUntouched(Abs(d, g), fs);
    NoClusters(Abs(d, g), g, f);
    SameCover(u, u, fs, Created(fs, id, f));
    OneStepped(g, d, u, fs, Created(fs, id, f), id);
    StepKeeps(d, d, g, u, u, fs, Created(fs, id, f), id);
  }

  lemma JustOpened(fat: seq<nat>, g: Geometry, f: FileDetails, dirty: bool, cs: seq<nat>)
    requires g.Valid() && Persisted(fat, g, f, cs)
    ensures Current(g, f, f, dirty, cs)
  {
  }

  /** The state after file `id` has been opened with handle `h`. */
  ghost function Opened(fs: Fs, id: Name, h: Handle): Fs {
    fs.(open := fs.open[id := h])
  }

  lemma SameCover(u: set<Spot>, u': set<Spot>, fs: Fs, fs': Fs)
    requires Covered(u, fs) && u' <= u
    requires forall j :: j in fs.open ==> j in fs'.open && fs'.open[j] == fs.open[j]
    ensures Covered(u', fs')
  {
    forall s | s in u' ensures exists j :: j in fs'.open && s in fs'.open[j].inserted {
      var j :| j in fs.open && s in fs.open[j].inserted;
      assert j in fs'.open && fs'.open[j] == fs.open[j];
    }
  }

  lemma OpenKeeps(d: seq<Block>, g: Geometry, u: set<Spot>, u': set<Spot>, fs: Fs, id: Name, h: Handle)
    requires g.Valid() && Good(d, g) && Sound(g, d, u, fs) && id in fs.records && id !in fs.open
    requires Rep(Abs(d, g).fat, h.chain, h.details.noFat, fs.chains[id]) && u' <= u
    requires h.details == fs.records[id] && h.inserted == {}
    ensures Sound(g, d, u', Opened(fs, id, h))
    ensures forall j :: j in fs.records && j != id ==> SameFile(d, d, g, fs, Opened(fs, id, h), j)
  {
    hide Books, Rep, Persisted, SameFile, Settled, Abs, Current, OthersSame, Covered, Untouched;
    BooksFacts(Abs(d, g).alloc, g, fs.system, fs.chains, fs.owner);
    JustOpened(Abs(d, g).fat, g, h.details, h.dirty, fs.chains[id]);
    SelfUntouched(Abs(d, g), fs);
    var fs' := Opened(fs, id, h);
    SameCover(u, u', fs, fs');
    OneStepped(g, d, u, fs, fs', id);
    StepKeeps(d, d, g, u, u', fs, fs', id);
  }

  /** What the entry set of open file `id` records after a flush. */
  ghost function Flushed(fs: Fs, id: Name): FileDetails
    requires id in fs.open && id in fs.records
  {
    if fs.open[id].dirty then fs.open[id].details.(firstCluster := FirstOf(fs.open[id].chain)) else fs.records[id]
  }

  /** The state after open file `id` has been flushed. */
  ghost function Saved(fs: Fs, id: Name): Fs
    requires id in fs.open && id in fs.records
  {
    fs.(records := fs.records[id := Flushed(fs, id)], open := fs.open[id := fs.open[id].(inserted := {}, dirty := false)])
  }

  /** The state after open file `id` has been flushed and closed. */
  ghost function Closed(fs: Fs, id: Name): Fs
    requires id in fs.open && id in fs.records
  {
    fs.(records := fs.records[id := Flushed(fs, id)], open := fs.open - {id})
  }

  /** Closing is flushing and dropping the handle. */
  lemma ClosedAfterSaved(fs: Fs, id: Name)
    requires id in fs.open && id in fs.records
    ensures Closed(Saved(fs, id), id) == Closed(fs, id)
  {
    assert Saved(fs, id).open - {id} == fs.open - {id};
  }

  /** Flushing records the file faithfully, also when the record needed no change. */
  lemma FlushedPersists(fat: seq<nat>, g: Geometry, fs: Fs, id: Name)
    requires g.Valid() && id in fs.open && id in fs.records && id in fs.chains && Settled(g, fs, id)
    requires Rep(fat, fs.open[id].chain, fs.open[id].details.noFat, fs.chains[id])
    requires Current(g, fs.records[id], fs.open[id].details, fs.open[id].dirty, fs.chains[id])
    ensures Persisted(fat, g, Flushed(fs, id), fs.chains[id])
    ensures Flushed(fs, id).dataLength == fs.open[id].details.dataLength
    ensures Flushed(fs, id).validDataLength == fs.open[id].details.validDataLength
  {
    hide Rep, PlacedAt, ClustersFor, Linked;
    FlushPersists(fat, g, fs.open[id].chain, fs.open[id].details, fs.chains[id]);
  }

  lemma CoveredLess(u: set<Spot>, u': set<Spot>, fs: Fs, fs': Fs, id: Name)
    requires Covered(u, fs) && id in fs.open && u' <= u - fs.open[id].inserted
    requires forall j :: j in fs.open && j != id ==> j in fs'.open && fs'.open[j] == fs.open[j]
    ensures Covered(u', fs')
  {
    forall s | s in u' ensures exists j :: j in fs'.open && s in fs'.open[j].inserted {
      var j :| j in fs.open && s in fs.open[j].inserted;
      assert j in fs'.open && fs'.open[j] == fs.open[j];
    }
  }

  lemma CurrentWhenFlushed(fat: seq<nat>, g: Geometry, fs: Fs, id: Name)
    requires g.Valid() && id in fs.open && id in fs.records && id in fs.chains && Settled(g, fs, id)
    requires Rep(fat, fs.open[id].chain, fs.open[id].details.noFat, fs.chains[id])
    requires Current(g, fs.records[id], fs.open[id].details, fs.open[id].dirty, fs.chains[id])
    ensures Current(g, Flushed(fs, id), fs.open[id].details, false, fs.chains[id])
  {
    hide PlacedAt, ClustersFor, Linked;
  }

  lemma SaveKeeps(d: seq<Block>, g: Geometry, u: set<Spot>, u': set<Spot>, fs: Fs, id: Name)
    requires g.Valid() && Good(d, g) && Sound(g, d, u, fs) && id in fs.open && id in fs.records && Settled(g, fs, id)
    requires u' <= u - fs.open[id].inserted
    ensures Sound(g, d, u', Saved(fs, id)) && Settled(g, Saved(fs, id), id)
    ensures SameContents(d, d, g, fs, Saved(fs, id), id)
    ensures forall j :: j in fs.records && j != id ==> SameFile(d, d, g, fs, Saved(fs, id), j)
  {
    hide Books, Rep, Persisted, SameFile, Abs, PlacedAt, ClustersFor, Visible, Current, Flushed, Covered, Untouched,
         AllStore, OthersSame;
    var v, fs' := Abs(d, g), Saved(fs, id);
    BooksFacts(v.alloc, g, fs.system, fs.chains, fs.owner);
    SelfUntouched(v, fs);
    OneStepped(g, d, u, fs, fs', id);
    CurrentWhenFlushed(v.fat, g, fs, id);
    CoveredLess(u, u', fs, fs', id);
    StepKeeps(d, d, g, u, u', fs, fs', id);
  }

  lemma CloseKeeps(d: seq<Block>, g: Geometry, u: set<Spot>, u': set<Spot>, fs: Fs, id: Name)
    requires g.Valid() && Good(d, g) && Sound(g, d, u, fs) && id in fs.open && id in fs.records && Settled(g, fs, id)
    requires u' <= u - fs.open[id].inserted
    ensures Sound(g, d, u', Closed(fs, id)) && Settled(g, Closed(fs, id), id)
    ensures SameContents(d, d, g, fs, Closed(fs, id), id)
    ensures forall j :: j in fs.records && j != id ==> SameFile(d, d, g, fs, Closed(fs, id), j)
  {
    hide Books, Rep, Persisted, SameFile, Abs, PlacedAt, ClustersFor, Visible, Current, Flushed, Covered, Untouched,
         AllStore, OthersSame;
    var v, fs' := Abs(d, g), Closed(fs, id);
    BooksFacts(v.alloc, g, fs.system, fs.chains, fs.owner);
    SelfUntouched(v, fs);
    OneStepped(g, d, u, fs, fs', id);
    FlushedPersists(v.fat, g, fs, id);
    CoveredLess(u, u', fs, fs', id);
    StepKeeps(d, d, g, u, u', fs, fs', id);
    SameVisible(d, g, fs.chains[id], fs.open[id].details, fs'.records[id]);
  }

  lemma SameVisible(d: seq<Block>, g: Geometry, cs: seq<nat>, f: FileDetails, f': FileDetails)
    requires g.Valid() && Good(d, g) && AllStore(g, cs) && |cs| == ClustersFor(f.dataLength, g)
    requires f'.dataLength == f.dataLength && f'.validDataLength == f.validDataLength
    ensures Visible(d, g, cs, f') == Visible(d, g, cs, f)
  {
  }

  /** The state after closed file `id` has given back its clusters. */
  ghost function Emptied(fs: Fs, id: Name): Fs
    requires id in fs.records && id in fs.chains
  {
    fs.(records := fs.records[id := fs.records[id].(firstCluster := NO_CLUSTER_ID, dataLength := 0, validDataLength := 0)],
        chains := fs.chains[id := []],
        owner := fs.owner - SetOf(fs.chains[id]))
  }

  lemma EmptiedKeeps(d: seq<Block>, d': seq<Block>, g: Geometry, u: set<Spot>, u': set<Spot>, fs: Fs, id: Name)
    requires g.Valid() && Good(d, g) && Good(d', g) && Sound(g, d, u, fs) && id in fs.records && id !in fs.open
    requires Freed(Abs(d, g), Abs(d', g), fs.chains[id]) && u' <= u
    ensures Sound(g, d', u', Emptied(fs, id)) && Settled(g, Emptied(fs, id), id)
    ensures forall j :: j in fs.records && j != id ==> SameFile(d, d', g, fs, Emptied(fs, id), j)
    ensures SystemKept(Abs(d, g), Abs(d', g), fs.system)
  {
    hide SystemKept, Abs, SameFile, Persisted, Held, Visible, ClustersFor, Books, Untouched, Freed, Covered, Own,
         Current;
    var v, v', fs' := Abs(d, g), Abs(d', g), Emptied(fs, id);
    CoveredStays(u, u', fs, fs');
    BooksShrink(v, v', g, fs.system, fs.chains, fs.owner, id);
    NoClusters(v', g, fs'.records[id]);
    StepKeeps(d, d', g, u, u', fs, fs', id);
  }

  /** The state after the entry set of an emptied file is gone. */
  ghost function Forget(fs: Fs, id: Name): Fs {
    fs.(records := fs.records - {id}, chains := fs.chains - {id})
  }

  lemma ForgetKeeps(d: seq<Block>, g: Geometry, u: set<Spot>, fs: Fs, id: Name)
    requires g.Valid() && Good(d, g) && Sound(g, d, u, fs) && id in fs.records && id !in fs.open && fs.chains[id] == []
    ensures Sound(g, d, u, Forget(fs, id))
    ensures forall j :: j in fs.records && j != id ==> SameFile(d, d, g, fs, Forget(fs, id), j)
  {
    hide Abs, SameFile, Persisted, Held, Visible, Books, Untouched, Covered, FileOk;
    CoveredStays(u, u, fs, Forget(fs, id));
    BooksDrop(Abs(d, g).alloc, g, fs.system, fs.chains, fs.owner, id);
    SelfUntouched(Abs(d, g), fs);
    StepKeeps(d, d, g, u, u, fs, Forget(fs, id), id);
  }

  lemma CoveredStays(u: set<Spot>, u': set<Spot>, fs: Fs, fs': Fs)
    requires Covered(u, fs) && u' <= u && fs'.open == fs.open
    ensures Covered(u', fs')
  {
  }

  lemma CoveredGrow(u: set<Spot>, u': set<Spot>, fs: Fs, fs': Fs, id: Name)
    requires Covered(u, fs) && id in fs.open && id in fs'.open && fs'.open.Keys == fs.open.Keys
    requires forall j :: j in fs.open && j != id ==> fs'.open[j] == fs.open[j]
    requires fs.open[id].inserted <= fs'.open[id].inserted && u' <= u + fs'.open[id].inserted
    ensures Covered(u', fs')
  {
    forall s | s in u' ensures exists j :: j in fs'.open && s in fs'.open[j].inserted {
      if s !in fs'.open[id].inserted {
        var j :| j in fs.open && s in fs.open[j].inserted;
        assert j in fs'.open && s in fs'.open[j].inserted;
      }
    }
  }

  lemma OpenIsKnown(g: Geometry, d: seq<Block>, unsaved: set<Spot>, fs: Fs, id: Name)
    requires Sound(g, d, unsaved, fs) && id in fs.open
    ensures id in fs.records && id in fs.chains
  {
  }

  /** What soundness says about one open file. */
  lemma SoundFacts(g: Geometry, d: seq<Block>, unsaved: set<Spot>, fs: Fs, id: Name)
    requires Sound(g, d, unsaved, fs) && id in fs.records
    ensures g.Valid() && Good(d, g)
    ensures BitmapHeld(Abs(d, g).alloc, g) && id in fs.chains && AllStore(g, fs.chains[id])
    ensures SetOf(fs.chains[id]) <= Abs(d, g).alloc
    ensures FileOk(g, Abs(d, g), fs, id)
  {
    BooksFacts(Abs(d, g).alloc, g, fs.system, fs.chains, fs.owner);
  }

  lemma SameFileTrans(d: seq<Block>, d1: seq<Block>, d2: seq<Block>, g: Geometry, fs: Fs, fs1: Fs, fs2: Fs, id: Name)
    requires SameFile(d, d1, g, fs, fs1, id) && SameFile(d1, d2, g, fs1, fs2, id)
    ensures SameFile(d, d2, g, fs, fs2, id)
  {
    hide Visible, PlacedAt, ClustersFor, AllStore;
  }

  lemma NotKnown(g: Geometry, d: seq<Block>, unsaved: set<Spot>, fs: Fs, id: Name)
    requires Sound(g, d, unsaved, fs) && id !in fs.records
    ensures id !in fs.open && id !in fs.chains
  {
  }

  // ---- a write, seen from outside -----------------------------------------------------------

  ghost function FreeClusters(g: Geometry, d: seq<Block>): nat {
    if g.Valid() && Good(d, g) then FreeCount(Abs(d, g).alloc, g) else 0
  }

  /** What a write of `n` bytes to open file `id` comes to. */
  ghost function Outcome(g: Geometry, d: seq<Block>, fs: Fs, id: Name, n: nat): Result<()> {
    if g.Valid() && id in fs.open && id in fs.chains
    then WriteOutcome(g, fs.open[id].canWrite, |fs.chains[id]|, fs.open[id].cursor, n, FreeClusters(g, d))
    else Ok(())
  }

  /** The stored bytes of a chain. */
  ghost function RawOf(d: seq<Block>, g: Geometry, cs: seq<nat>): seq<byte>
    requires g.Valid() && Good(d, g) && AllStore(g, cs)
  {
    LengthPositive(g);
    StoresBacked(d, g, cs);
    Raw(Abs(d, g).data, cs, g.ClusterLength())
  }

  /** File `id` was written at its cursor: the cursor moved behind the bytes, and the contents are
      the old ones with `x` written into them, exactly when no stale byte lay between the valid
      length and the cursor. */
  ghost predicate Written(d: seq<Block>, d': seq<Block>, g: Geometry, fs: Fs, fs': Fs, id: Name, x: seq<byte>) {
    && Settled(g, fs, id) && Settled(g, fs', id) && Good(d, g) && Good(d', g)
    && AllStore(g, fs.chains[id]) && AllStore(g, fs'.chains[id])
    && id in fs.open && id in fs'.open
    && fs'.open[id].cursor == fs.open[id].cursor + |x|
    && fs'.open[id].details.validDataLength == (
         if x != [] && fs.open[id].cursor + |x| > fs.open[id].details.validDataLength then fs.open[id].cursor + |x|
         else fs.open[id].details.validDataLength)
    && SameMode(fs, fs', id)
    && var at, f := fs.open[id].cursor, fs.open[id].details;
    && at <= |RawOf(d, g, fs.chains[id])|
    && (ContentsOf(d', g, fs', id) == WriteAt(ContentsOf(d, g, fs, id), at, x)
        <==> x == [] || GapClean(RawOf(d, g, fs.chains[id]), f.validDataLength, at))
  }

  /** In particular a write at or before the valid length writes into the contents. */
  lemma WrittenInside(d: seq<Block>, d': seq<Block>, g: Geometry, fs: Fs, fs': Fs, id: Name, x: seq<byte>)
    requires Written(d, d', g, fs, fs', id, x)
    requires fs.open[id].cursor <= fs.open[id].details.validDataLength
    ensures ContentsOf(d', g, fs', id) == WriteAt(ContentsOf(d, g, fs, id), fs.open[id].cursor, x)
  {
  }

  ghost predicate SameMode(fs: Fs, fs': Fs, id: Name)
    requires id in fs.open && id in fs'.open
  {
    fs'.open[id].canRead == fs.open[id].canRead && fs'.open[id].canWrite == fs.open[id].canWrite
  }

  lemma IsWritten(d: seq<Block>, d': seq<Block>, g: Geometry, fs: Fs, fs': Fs, id: Name, x: seq<byte>)
    requires Settled(g, fs, id) && Settled(g, fs', id) && Good(d, g) && Good(d', g)
    requires AllStore(g, fs.chains[id]) && AllStore(g, fs'.chains[id]) && id in fs.open && id in fs'.open
    requires fs.chains[id] <= fs'.chains[id] && fs'.open[id].cursor == fs.open[id].cursor + |x| && SameMode(fs, fs', id)
    requires if x == [] then Abs(d', g) == Abs(d, g) && fs'.chains[id] == fs.chains[id]
             && fs'.open[id].details == fs.open[id].details
             else SplicedIn(g, Abs(d, g), Abs(d', g), fs'.chains[id], fs.open[id].cursor, x)
                  && fs'.open[id].details
                      == Longer(fs.open[id].details, fs.open[id].cursor + |x|).(noFat := fs'.open[id].details.noFat)
    ensures Written(d, d', g, fs, fs', id, x)
  {
    hide SplicedIn, PlacedAt, AllStore, Abs;
    var at, f, cs := fs.open[id].cursor, fs.open[id].details, fs.chains[id];
    CeilReach(f.dataLength, g);
    if x == [] {
      VisibleSame(d, d', g, cs, f);
    } else {
      VisibleAfterWrite(d, d', g, cs, fs'.chains[id], f, fs'.open[id].details, at, x);
    }
  }

  lemma CeilReach(len: nat, g: Geometry)
    requires g.Valid()
    ensures len <= ClustersFor(len, g) * g.ClusterLength()
  {
    CeilBound(len, g.ClusterLength());
  }

  lemma VisibleSame(d: seq<Block>, d': seq<Block>, g: Geometry, cs: seq<nat>, f: FileDetails)
    requires g.Valid() && Good(d, g) && Good(d', g) && AllStore(g, cs) && |cs| == ClustersFor(f.dataLength, g)
    requires Abs(d', g) == Abs(d, g)
    ensures Visible(d', g, cs, f) == Visible(d, g, cs, f)
  {
  }

  /** File `id` was read: `r` is what a buffer of `n` bytes got, and the cursor moved behind it. */
  ghost predicate WasRead(d: seq<Block>, g: Geometry, fs: Fs, fs': Fs, id: Name, n: nat, r: Result<Option<seq<byte>>>) {
    && Settled(g, fs, id) && Settled(g, fs', id) && Good(d, g) && AllStore(g, fs.chains[id])
    && fs'.chains[id] == fs.chains[id] && id in fs.open && id in fs'.open
    && var at, len := fs.open[id].cursor, fs.open[id].details.dataLength;
    && ContentsOf(d, g, fs', id) == ContentsOf(d, g, fs, id)
    && fs'.open[id].details == fs.open[id].details && SameMode(fs, fs', id)
    && if !fs.open[id].canRead then r == Err(ReadNotEnabled) && fs'.open[id].cursor == at
       else if at >= len then r == Ok(None) && fs'.open[id].cursor == at
       else r == Ok(Some(ContentsOf(d, g, fs, id)[at..Min(at + n, len)])) && fs'.open[id].cursor == Min(at + n, len)
  }

  lemma IsRead(d: seq<Block>, g: Geometry, fs: Fs, fs': Fs, id: Name, n: nat, r: Result<Option<seq<byte>>>)
    requires Settled(g, fs, id) && Settled(g, fs', id) && Good(d, g) && AllStore(g, fs.chains[id])
    requires id in fs.open && id in fs'.open && fs'.chains[id] == fs.chains[id]
    requires fs'.open[id].details == fs.open[id].details && SameMode(fs, fs', id)
    requires var at, f := fs.open[id].cursor, fs.open[id].details;
             if !fs.open[id].canRead then r == Err(ReadNotEnabled) && fs'.open[id].cursor == at
             else if at >= f.dataLength then r == Ok(None) && fs'.open[id].cursor == at
             else
               && r == Ok(Some(Visible(d, g, fs.chains[id], f)[at..Min(at + n, f.dataLength)]))
               && fs'.open[id].cursor == Min(at + n, f.dataLength)
    ensures WasRead(d, g, fs, fs', id, n, r)
  {
    hide Visible, AllStore, PlacedAt, ClustersFor, Good;
  }

  /** Seeking file `id` to `pos` came to `r`. It leaves the file in order exactly when the position
      is in one of the file's clusters, or the file has none. */
  ghost predicate WasSought(d: seq<Block>, g: Geometry, fs: Fs, fs': Fs, id: Name, pos: nat, r: Result<()>) {
    && g.Valid() && Good(d, g) && id in fs.open && id in fs'.open && id in fs.chains && id in fs.records && id in fs'.records
    && id in fs'.chains && fs'.chains[id] == fs.chains[id] && AllStore(g, fs.chains[id])
    && fs'.open[id].details == fs.open[id].details && SameMode(fs, fs', id)
    && (r.Ok? || r == Err(SeekOutOfRange) || r == Err(EndOfFatChain))
    && (r == Err(EndOfFatChain) ==> pos >= |fs.chains[id]| * g.ClusterLength() && fs.chains[id] != [])
    && (r == Err(SeekOutOfRange) <==> pos > fs.open[id].details.validDataLength)
    && (r == Err(SeekOutOfRange) ==> fs'.open[id] == fs.open[id])
    && (r.Ok? && Settled(g, fs, id) ==>
          && fs'.open[id].cursor == pos
          && (Settled(g, fs', id) <==> fs.chains[id] == [] || pos < |fs.chains[id]| * g.ClusterLength()))
  }

  // ---- opening, seen from outside -------------------------------------------------------------

  /** The cluster `open` starts in. */
  function StartCluster(chain: StoredChain, record: FileDetails, append: bool): nat
    requires chain.Contiguous? ==> chain.first + chain.count > 0
  {
    if append && chain.Contiguous? then chain.first + chain.count - 1
    else if append && chain.Fat? then chain.last
    else record.firstCluster
  }

  /** Where opening puts the cursor is right except for appending to a file whose valid length does
      not lie in its last cluster; in particular not when it fills its clusters exactly. */
  ghost predicate OpensWell(g: Geometry, record: FileDetails, cs: seq<nat>, append: bool)
    requires g.Valid()
  {
    LengthPositive(g);
    !append || cs == [] || record.validDataLength / g.ClusterLength() == |cs| - 1
  }

  lemma OpenPlaced(fat: seq<nat>, g: Geometry, record: FileDetails, cs: seq<nat>, append: bool, cursor: nat,
                   remaining: nat)
    requires g.Valid() && 0 < g.ClusterLength() && Persisted(fat, g, record, cs)
    requires cursor == (if append then record.validDataLength else 0)
    requires remaining == (if cs == [] then 0 else g.ClusterLength() - cursor % g.ClusterLength())
    ensures var chain := Reopened(record, cs);
            && (chain.Contiguous? ==> chain.first + chain.count > 0)
            && (PlacedAt(g, cs, cursor, StartCluster(chain, record, append), remaining) <==>
                OpensWell(g, record, cs, append))
  {
    var cl := g.ClusterLength();
    CeilBound(record.dataLength, cl);
    if cs != [] {
      if append {
        if record.noFat { assert cs[|cs| - 1] == cs[0] + |cs| - 1; }
        AppendPlaced(cs, cl, record.validDataLength);
      } else {
        AtStart(cs, cl, record.firstCluster);
      }
    }
  }

  /** File `id` was opened. */
  ghost predicate WasOpened(g: Geometry, fs: Fs, fs': Fs, id: Name, canRead: bool, canWrite: bool, append: bool) {
    && g.Valid() && id in fs.records && id in fs.chains && id in fs'.open && fs' == Opened(fs, id, fs'.open[id])
    && fs'.open[id].details == fs.records[id] && fs'.open[id].chain == Reopened(fs.records[id], fs.chains[id])
    && fs'.open[id].canRead == canRead && fs'.open[id].canWrite == canWrite
    && fs'.open[id].cursor == (if append then fs.records[id].validDataLength else 0)
    && Settled(g, fs, id)
    && (Settled(g, fs', id) <==> OpensWell(g, fs.records[id], fs.chains[id], append))
  }

  lemma IsOpened(g: Geometry, fs: Fs, id: Name, h: Handle, canRead: bool, canWrite: bool, append: bool)
    requires id in fs.records && id in fs.chains && id !in fs.open && Settled(g, fs, id)
    requires h.details == fs.records[id] && h.chain == Reopened(fs.records[id], fs.chains[id])
    requires h.canRead == canRead && h.canWrite == canWrite
    requires h.cursor == (if append then h.details.validDataLength else 0)
    requires PlacedAt(g, fs.chains[id], h.cursor, h.current, h.remaining) <==> OpensWell(g, h.details, fs.chains[id], append)
    ensures WasOpened(g, fs, Opened(fs, id, h), id, canRead, canWrite, append)
  {
    hide PlacedAt, OpensWell, ClustersFor, Reopened, Geometry.Valid;
  }

  // ---- flushing and opening again ---------------------------------------------------------------

  /** Open file `id` came back as it was: same clusters, lengths and flag. Its chain has the shape that
      the record calls for, whatever shape it was held in before. */
  ghost predicate CameBack(g: Geometry, fs: Fs, fs': Fs, id: Name) {
    && g.Valid() && id in fs.open && id in fs'.open && id in fs.chains && id in fs'.chains && fs'.chains[id] == fs.chains[id]
    && var f, f', cs := fs.open[id].details, fs'.open[id].details, fs.chains[id];
    && f'.dataLength == f.dataLength && f'.validDataLength == f.validDataLength && f'.noFat == f.noFat && SamePlace(f, f')
    && (cs != [] ==> f'.firstCluster == cs[0])
    && fs'.open[id].chain == (if cs == [] then Empty
                              else if f.noFat then Contiguous(cs[0], |cs|)
                              else StoredChain.Fat(cs[0], cs[|cs| - 1], |cs|))
    && fs'.open[id].cursor == 0 && Settled(g, fs', id)
  }

  /** What is recorded of a file after it was closed brings it back. */
  lemma ClosedComesBack(fat: seq<nat>, g: Geometry, fs: Fs, fs': Fs, id: Name, canRead: bool, canWrite: bool)
    requires g.Valid() && id in fs.open && id in fs.records && id in fs.chains && Settled(g, fs, id)
    requires Rep(fat, fs.open[id].chain, fs.open[id].details.noFat, fs.chains[id])
    requires Current(g, fs.records[id], fs.open[id].details, fs.open[id].dirty, fs.chains[id])
    requires WasOpened(g, Closed(fs, id), fs', id, canRead, canWrite, false)
    ensures CameBack(g, fs, fs', id)
  {
    hide PlacedAt, ClustersFor, Linked, Rep;
    FlushedPersists(fat, g, fs, id);
    RecordShape(fat, g, Flushed(fs, id), fs.chains[id]);
  }

  lemma RecordShape(fat: seq<nat>, g: Geometry, f: FileDetails, cs: seq<nat>)
    requires g.Valid() && Persisted(fat, g, f, cs)
    ensures cs != [] ==> f.firstCluster == cs[0]
  {
  }

  lemma OpenedContents(d: seq<Block>, d': seq<Block>, g: Geometry, fs: Fs, mid: Fs, fs': Fs, id: Name, canRead: bool,
                       canWrite: bool)
    requires SameContents(d, d', g, fs, mid, id) && id !in mid.open
    requires WasOpened(g, mid, fs', id, canRead, canWrite, false)
    ensures SameContents(d, d', g, fs, fs', id)
  {
    hide PlacedAt, ClustersFor, AllStore, Visible;
  }

  // ---- what the device alone holds ------------------------------------------------------------------

  /** The file has been flushed since it was last changed, or is closed. */
  ghost predicate Clean(fs: Fs, id: Name) {
    id in fs.open ==> fs.open[id].inserted == {} && !fs.open[id].dirty
  }

  /** What an open file has written since its last flush belongs to its own clusters. */
  lemma WrittenOwn(g: Geometry, d: seq<Block>, u: set<Spot>, fs: Fs, x: Spot) returns (j: Name, c: nat)
    requires Sound(g, d, u, fs) && x in u
    ensures j in fs.open && x in fs.open[j].inserted && j in fs.chains && c in fs.chains[j] && ClusterSpot(g, c, x)
  {
    hide Books, Held, Current, ClusterSpot;
    j :| j in fs.open && x in fs.open[j].inserted;
    assert FileOk(g, Abs(d, g), fs, j) && OwnSpot(g, fs.chains[j], x);
    c :| c in fs.chains[j] && ClusterSpot(g, c, x);
  }

  /** So the device is nowhere behind on a clean file, whatever other files are open and unsaved. */
  lemma FileCaught(g: Geometry, d: seq<Block>, u: set<Spot>, fs: Fs, id: Name, c: nat)
    requires Sound(g, d, u, fs) && id in fs.chains && Clean(fs, id) && c in fs.chains[id]
    ensures Caught(g, c, u)
  {
    hide ClusterSpot, FileOk, Covered, Geometry.Valid;
    NoneShared(Abs(d, g).alloc, fs.system, fs.chains, fs.owner);
    forall x | x in u ensures !ClusterSpot(g, c, x) {
      var j, k := WrittenOwn(g, d, u, fs, x);
      if ClusterSpot(g, c, x) {
        SpotsApart(g, c, k, x);
      }
    }
  }

  /** Nor is it on the system's clusters. */
  lemma SystemCaught(g: Geometry, d: seq<Block>, u: set<Spot>, fs: Fs, c: nat)
    requires Sound(g, d, u, fs) && c in fs.system
    ensures Caught(g, c, u)
  {
    hide ClusterSpot, FileOk, Covered, Geometry.Valid;
    forall x | x in u ensures !ClusterSpot(g, c, x) {
      var j, k := WrittenOwn(g, d, u, fs, x);
      assert k in fs.owner;
      if ClusterSpot(g, c, x) {
        SpotsApart(g, c, k, x);
      }
    }
  }

  lemma CaughtUntouched(g: Geometry, d: seq<Block>, d': seq<Block>, cs: seq<nat>)
    requires g.Valid() && Good(d, g) && Good(d', g) && AllStore(g, cs)
    requires forall c :: c in cs ==> Caught(g, c, Behind(g, d, d'))
    ensures Untouched(Abs(d, g), Abs(d', g), cs)
  {
    hide Caught, Geometry.Stores, Geometry.Valid, Good, AllStore;
    BitEndFacts(g);
    forall c | c in cs
      ensures c < g.EndCluster() ==> FatEntry(d', g, c) == FatEntry(d, g, c) && ClusterData(d', g, c) == ClusterData(d, g, c)
      ensures c in AllocSet(d, g) ==> c in AllocSet(d', g)
    {
      StoreBounds(g, cs, c);
      FatCaught(d, d', g, c);
      DataCaught(d, d', g, c);
      if c in AllocSet(d, g) { BitCaught(d, d', g, c); }
    }
  }

  lemma StoreBounds(g: Geometry, cs: seq<nat>, c: nat)
    requires g.Valid() && AllStore(g, cs) && c in cs
    ensures FIRST_CLUSTER_ID <= c < g.EndCluster()
  {
  }

  lemma CaughtSystem(g: Geometry, d: seq<Block>, d': seq<Block>, system: set<nat>)
    requires g.Valid() && Good(d, g) && Good(d', g) && system <= Abs(d, g).alloc
    requires forall c :: c in system ==> Caught(g, c, Behind(g, d, d'))
    ensures SystemKept(Abs(d, g), Abs(d', g), system)
  {
    hide Caught, Geometry.Stores, Geometry.Valid, Good, Allocated;
    BitEndFacts(g);
    forall c | c in system
      ensures FatEntry(d', g, c) == FatEntry(d, g, c) && ClusterData(d', g, c) == ClusterData(d, g, c)
    {
      assert c in AllocSet(d, g);
      FatCaught(d, d', g, c);
      DataCaught(d, d', g, c);
    }
  }

  /** The disk `d` by itself holds file `id`: its record leads to its clusters, which are allocated and hold
      the bytes `x`. */
  ghost predicate StoredAlone(d: seq<Block>, g: Geometry, fs: Fs, id: Name, x: seq<byte>) {
    && g.Valid() && Good(d, g) && id in fs.records && id in fs.chains && AllStore(g, fs.chains[id])
    && Persisted(Abs(d, g).fat, g, fs.records[id], fs.chains[id]) && SetOf(fs.chains[id]) <= Abs(d, g).alloc
    && Visible(d, g, fs.chains[id], fs.records[id]) == x
  }

  /** A clean file is on the device as it is on the logical disk. */
  lemma CleanStored(g: Geometry, d: seq<Block>, dev: seq<Block>, fs: Fs, id: Name)
    requires g.Valid() && Sound(g, d, Behind(g, d, dev), fs) && Good(dev, g)
    requires id in fs.records && Clean(fs, id) && Settled(g, fs, id)
    ensures AllStore(g, fs.chains[id]) && StoredAlone(dev, g, fs, id, ContentsOf(d, g, fs, id))
  {
    hide Books, Caught, Geometry.Valid, Covered, AllStore, Visible, PlacedAt, ClustersFor, Untouched, Abs, Persisted,
         Held, Current;
    var cs, u := fs.chains[id], Behind(g, d, dev);
    SoundFacts(g, d, u, fs, id);
    forall c | c in cs ensures Caught(g, c, u) {
      FileCaught(g, d, u, fs, id, c);
    }
    CaughtUntouched(g, d, dev, cs);
    CleanPersists(g, Abs(d, g), fs, id);
    PersistedKept(Abs(d, g), Abs(dev, g), g, fs.records[id], cs);
    PersistedSize(Abs(d, g).fat, g, fs.records[id], cs);
    StillAllocated(Abs(d, g), Abs(dev, g), cs);
    VisibleKept(d, dev, g, cs, fs.records[id]);
    SameVisible(d, g, cs, DetailsOf(fs, id), fs.records[id]);
  }

  lemma PersistedSize(fat: seq<nat>, g: Geometry, f: FileDetails, cs: seq<nat>)
    requires g.Valid() && Persisted(fat, g, f, cs)
    ensures |cs| == ClustersFor(f.dataLength, g)
  {
  }

  lemma StillAllocated(v: Vol, v': Vol, cs: seq<nat>)
    requires Untouched(v, v', cs) && SetOf(cs) <= v.alloc
    ensures SetOf(cs) <= v'.alloc
  {
    assert forall c :: c in cs ==> c in SetOf(cs);
  }

  /** What is recorded of a clean file stands for its clusters and has its lengths. */
  lemma CleanPersists(g: Geometry, v: Vol, fs: Fs, id: Name)
    requires g.Valid() && id in fs.records && id in fs.chains && FileOk(g, v, fs, id) && Clean(fs, id) && Settled(g, fs, id)
    ensures Persisted(v.fat, g, fs.records[id], fs.chains[id])
    ensures fs.records[id].dataLength == DetailsOf(fs, id).dataLength
    ensures fs.records[id].validDataLength == DetailsOf(fs, id).validDataLength
  {
    hide Rep, PlacedAt, ClustersFor, Persisted, Own, AllStore;
    if id in fs.open {
      FlushedPersists(v.fat, g, fs, id);
    }
  }

  /** The system's clusters are on the device as they are on the logical disk. */
  lemma SystemStored(g: Geometry, d: seq<Block>, dev: seq<Block>, fs: Fs)
    requires g.Valid() && Sound(g, d, Behind(g, d, dev), fs) && Good(dev, g)
    ensures SystemKept(Abs(d, g), Abs(dev, g), fs.system)
  {
    hide Caught, Geometry.Valid, Covered, FileOk, SystemKept, Abs, Good;
    forall c | c in fs.system ensures Caught(g, c, Behind(g, d, dev)) {
      SystemCaught(g, d, Behind(g, d, dev), fs, c);
    }
    CaughtSystem(g, d, dev, fs.system);
  }
}
