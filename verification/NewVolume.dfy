/** Where runs begin: a volume without files, mounted. */
module NewVolume {
  import opened Allocator
  import opened Bytes
  import opened Chains
  import opened DirEntry
  import opened DirPlace
  import opened DirReader
  import opened DirState
  import opened Disk
  import opened EntrySet
  import opened File
  import opened FileData
  import opened FileOps
  import FileSystem
  import opened FsState
  import opened Names
  import opened RunModel
  import opened Runs
  import opened RunSteps
  import opened SlotCache
  import opened Volume

  /** The bitmap marks the system's clusters and no others, and the directory lists nothing. */
  ghost predicate Blank(d: seq<Block>, g: Geometry, dir: seq<nat>, system: set<nat>) {
    && g.Valid() && Good(d, g) && Abs(d, g).alloc == system
    && (forall c: nat :: FIRST_CLUSTER_ID <= c < g.BitEnd() && !g.Stores(c) ==> c in system)
    && IsDirectory(Abs(d, g).fat, g, dir) && (forall c :: c in dir ==> c in system)
    && forall k :: 0 <= k < Capacity(g, dir) ==> !InUse(Entries(d, g, dir)[k])
  }

  ghost function NoFiles(system: set<nat>): Fs { Fs(system, map[], map[], map[], map[]) }

  lemma BlankSound(d: seq<Block>, g: Geometry, dir: seq<nat>, system: set<nat>)
    requires Blank(d, g, dir, system)
    ensures Sound(g, d, {}, NoFiles(system))
  {
    hide Abs, IsDirectory, Entries, Capacity, Geometry.Valid, Good;
    assert Ownership(Abs(d, g).alloc, system, map[], map[]);
  }

  lemma BlankRecorded(d: seq<Block>, g: Geometry, table: UpcaseMap, dir: seq<nat>, system: set<nat>)
    requires Blank(d, g, dir, system)
    ensures Recorded(d, g, table, dir, NoFiles(system))
  {
    hide Abs, Entries, Capacity, Geometry.Valid, Good;
    var es := Entries(d, g, dir);
    forall k | 0 <= k < |es| ensures !IsFile(es[k]) {
      assert !InUse(es[k]);
    }
    assert WellFormed(es) && Listing(es) == map[];
  }

  /** A mounted blank volume is where runs can start. */
  method Mount(vol: Volume, table: UpcaseMap, root: nat, ghost dir: seq<nat>,
               ghost system: set<nat>) returns (s: FileSystem.FileSystem)
    requires vol.Valid() && vol.Unsaved() == {} && Blank(vol.flat, vol.g, dir, system) && root == dir[0]
    ensures fresh(s) && s.vol == vol && Ready(s) && WorldOf(s) == World(vol.g, table, dir) && StateOf(s).files == map[]
  {
    hide Volume.Coherent, Volume.Unsaved, Blank, Sound, Recorded, Good, Geometry.Valid, Used, Settled;
    BlankSound(vol.flat, vol.g, dir, system);
    BlankRecorded(vol.flat, vol.g, table, dir, system);
    BlankDirectory(vol.flat, vol.g, dir, system);
    ghost var fp := vol.Footprint();
    var alloc := new Allocator(vol);
    s := new FileSystem.FileSystem(vol, alloc, table, root, dir, NoFiles(system));
  }

  lemma BlankDirectory(d: seq<Block>, g: Geometry, dir: seq<nat>, system: set<nat>)
    requires Blank(d, g, dir, system)
    ensures g.Valid() && Good(d, g) && dir != []
  {
  }

  // ---- such a volume exists -------------------------------------------------------------------------

  /** Cluster 2 holds the bitmap, and cluster 3 the empty directory. */
  function BlankDisk(): (d: seq<Block>)
    ensures Good(d, SmallVolume())
  {
    seq(64, s => if s == 24 then seq(512, i => if 12 <= i < 16 then 0xFF else 0)
                 else if s == 32 then seq(512, i => if i == 0 then 3 else 0)
                 else seq(512, i => 0))
  }

  lemma {:induction false} NoBits(k: nat)
    ensures !BitOf(0, k)
    decreases k
  {
    if k > 0 { NoBits(k - 1); }
  }

  lemma TwoBits(k: nat)
    ensures BitOf(3, k) <==> k < 2
  {
    if k >= 2 {
      NoBits(k - 2);
      assert BitOf(3, k) == BitOf(1, k - 1) == BitOf(0, k - 2);
    } else {
      assert BitOf(1, 0);
    }
  }

  lemma BlankAlloc(c: nat)
    requires FIRST_CLUSTER_ID <= c < SmallVolume().BitEnd()
    ensures Allocated(BlankDisk(), SmallVolume(), c) <==> c == 2 || c == 3
  {
    var b := c - 2;
    assert BitSectorOf(SmallVolume(), c) == 32 && BitInSector(SmallVolume(), c) == b;
    TwoBits(b % 8);
    NoBits(b % 8);
  }

  lemma BlankEntries(k: nat)
    requires AllStore(SmallVolume(), [3]) && k < Capacity(SmallVolume(), [3])
    ensures !InUse(Entries(BlankDisk(), SmallVolume(), [3])[k])
  {
    hide Geometry.Valid, Geometry.KindOf, Entries, Capacity;
    EntryByte(BlankDisk(), SmallVolume(), [3], k, 0);
    IndexInDir(SmallVolume(), [3], k);
  }

  lemma BlankLink()
    ensures FatEntry(BlankDisk(), SmallVolume(), 3) == END_OF_CHAIN
  {
    hide Geometry.KindOf, Geometry.Valid, Good;
    var b := BlankDisk()[24];
    assert FatSectorOf(SmallVolume(), 3) == 24 && FatByteOf(SmallVolume(), 3) == 12;
    assert b[12..16] == [0xFF, 0xFF, 0xFF, 0xFF];
  }

  lemma BlankBitmap()
    ensures AllocSet(BlankDisk(), SmallVolume()) == {2, 3}
  {
    hide Allocated, BlankDisk;
    assert SmallVolume().BitEnd() == 34;
    forall c: nat | FIRST_CLUSTER_ID <= c < SmallVolume().BitEnd()
      ensures Allocated(BlankDisk(), SmallVolume(), c) <==> c == 2 || c == 3
    {
      BlankAlloc(c);
    }
  }

  lemma BlankChain()
    ensures IsDirectory(FatTable(BlankDisk(), SmallVolume()), SmallVolume(), [3])
    ensures forall c: nat :: FIRST_CLUSTER_ID <= c < SmallVolume().BitEnd() && !SmallVolume().Stores(c) ==> c in {2, 3}
  {
    hide FatEntry, BlankDisk;
    BlankLink();
    var fat := FatTable(BlankDisk(), SmallVolume());
    assert |fat| == 34 && fat[3] == END_OF_CHAIN && NextOf(fat[3]).None?;
    assert SmallVolume().Stores(3) && AllStore(SmallVolume(), [3]);
  }

  lemma BlankExists()
    ensures Blank(BlankDisk(), SmallVolume(), [3], {2, 3})
  {
    hide BlankDisk, Entries, AllocSet, FatTable, IsDirectory, InUse, Capacity, SmallVolume;
    BlankBitmap();
    BlankChain();
    DirectoryStores(FatTable(BlankDisk(), SmallVolume()), SmallVolume(), [3]);
    forall k | 0 <= k < Capacity(SmallVolume(), [3]) ensures !InUse(Entries(BlankDisk(), SmallVolume(), [3])[k]) {
      BlankEntries(k);
    }
  }

  /** So there is a file system to run. */
  method Start(table: UpcaseMap) returns (s: FileSystem.FileSystem)
    ensures fresh(s) && Ready(s) && WorldOf(s) == World(SmallVolume(), table, [3]) && StateOf(s).files == map[]
  {
    hide Blank, Ready, Good;
    BlankExists();
    var dev := new Device(BlankDisk());
    var vol := new Volume(SmallVolume(), dev, 4);
    s := Mount(vol, table, 3, [3], {2, 3});
  }
}
