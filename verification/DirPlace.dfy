/** Where the entries of a directory are on the disk (src/directory_entry.rs:411-487 and 612-650). */
module DirPlace {
  import opened Allocator
  import opened Bytes
  import opened Chains
  import opened Cursor
  import opened DirEntry
  import opened Disk
  import opened File
  import opened FileData
  import opened Results

  function PerSector(g: Geometry): (n: nat)
    requires g.Valid()
    ensures 0 < n && g.size == 32 * n
  {
    g.size / 32
  }

  function PerCluster(g: Geometry): (n: nat)
    requires g.Valid()
    ensures 0 < n && g.ClusterLength() == 32 * n && n == g.sectorsPerCluster * PerSector(g)
  {
    var n := g.sectorsPerCluster * PerSector(g);
    assert g.ClusterLength() == (32 * PerSector(g)) * g.sectorsPerCluster == 32 * n;
    n
  }

  /** How many entries the clusters of a directory hold. */
  function Capacity(g: Geometry, dir: seq<nat>): nat
    requires g.Valid()
  {
    |dir| * PerCluster(g)
  }

  /** The clusters of a directory: they can hold data, and the FAT leads from one to the next. */
  ghost predicate IsDirectory(fat: seq<nat>, g: Geometry, dir: seq<nat>)
    requires g.Valid()
  {
    && dir != [] && Distinct(dir) && InHeap(dir, |fat|) && AllStore(g, dir)
    && forall i :: 0 <= i < |dir| ==> NextOf(fat[dir[i]]) == if i + 1 < |dir| then Some(dir[i + 1]) else None
  }

  /** Which cluster of the directory entry `k` is in, which sector of the cluster, and which entry
      of the sector it is. */
  lemma Coordinates(g: Geometry, k: nat)
    requires g.Valid()
    ensures var e, c := PerSector(g), PerCluster(g);
            && 0 <= k / c && 0 <= k % c < c && 0 <= (k % c) / e < g.sectorsPerCluster && 0 <= k % e < e
            && (k % c) % e == k % e
            && k == (k / c) * c + ((k % c) / e) * e + k % e
  {
    hide PerSector, PerCluster, Geometry.Valid, Geometry.ClusterLength;
    var e, c := PerSector(g), PerCluster(g);
    DivModFacts(k, c);
    DivModFacts(k % c, e);
    DivLess(k % c, e, g.sectorsPerCluster);
    var q := (k / c) * g.sectorsPerCluster + (k % c) / e;
    assert (k / c) * c == ((k / c) * g.sectorsPerCluster) * e;
    assert k == q * e + (k % c) % e;
    DivModUnique(k, e, q, (k % c) % e);
  }

  function ClusterNo(g: Geometry, k: nat): nat
    requires g.Valid()
  {
    Coordinates(g, k);
    k / PerCluster(g)
  }

  function SectorNo(g: Geometry, k: nat): (j: nat)
    requires g.Valid()
    ensures j < g.sectorsPerCluster
  {
    Coordinates(g, k);
    (k % PerCluster(g)) / PerSector(g)
  }

  function EntryNo(g: Geometry, k: nat): (f: nat)
    requires g.Valid()
    ensures f < PerSector(g)
  {
    Coordinates(g, k);
    k % PerSector(g)
  }

  lemma IndexInDir(g: Geometry, dir: seq<nat>, k: nat)
    requires g.Valid()
    ensures ClusterNo(g, k) < |dir| <==> k < Capacity(g, dir)
  {
    var c := PerCluster(g);
    DivModFacts(k, c);
    if k / c < |dir| {
      MulMono(k / c + 1, |dir|, c);
      assert (k / c + 1) * c == (k / c) * c + c;
    } else {
      MulMono(|dir|, k / c, c);
    }
  }

  /** The location of entry `k`. */
  function PlaceOf(g: Geometry, dir: seq<nat>, k: nat): Location
    requires g.Valid() && k < Capacity(g, dir) && AllStore(g, dir)
  {
    IndexInDir(g, dir, k);
    assert dir[ClusterNo(g, k)] in dir;
    Location(g.HeapSector(dir[ClusterNo(g, k)]) + SectorNo(g, k), EntryNo(g, k))
  }

  /** The coordinates of the next entry. */
  lemma NextCoordinates(g: Geometry, k: nat)
    requires g.Valid()
    ensures if EntryNo(g, k) + 1 < PerSector(g) then
              ClusterNo(g, k + 1) == ClusterNo(g, k) && SectorNo(g, k + 1) == SectorNo(g, k)
              && EntryNo(g, k + 1) == EntryNo(g, k) + 1
            else if SectorNo(g, k) + 1 < g.sectorsPerCluster then
              ClusterNo(g, k + 1) == ClusterNo(g, k) && SectorNo(g, k + 1) == SectorNo(g, k) + 1
              && EntryNo(g, k + 1) == 0
            else
              ClusterNo(g, k + 1) == ClusterNo(g, k) + 1 && SectorNo(g, k + 1) == 0 && EntryNo(g, k + 1) == 0
  {
    hide PerSector, PerCluster, Geometry.Valid, Geometry.ClusterLength, ClusterNo, SectorNo, EntryNo;
    Split(g, k);
    var q, j, f := ClusterNo(g, k), SectorNo(g, k), EntryNo(g, k);
    if f + 1 < PerSector(g) {
      AtCoordinates(g, q, j, f + 1, k + 1);
    } else if j + 1 < g.sectorsPerCluster {
      assert (j + 1) * PerSector(g) == j * PerSector(g) + PerSector(g);
      AtCoordinates(g, q, j + 1, 0, k + 1);
    } else {
      assert (j + 1) * PerSector(g) == j * PerSector(g) + PerSector(g);
      assert (q + 1) * PerCluster(g) == q * PerCluster(g) + PerCluster(g);
      AtCoordinates(g, q + 1, 0, 0, k + 1);
    }
  }

  lemma Split(g: Geometry, k: nat)
    requires g.Valid()
    ensures k == ClusterNo(g, k) * PerCluster(g) + SectorNo(g, k) * PerSector(g) + EntryNo(g, k)
  {
    Coordinates(g, k);
  }

  lemma AtCoordinates(g: Geometry, q: nat, j: nat, f: nat, k: nat)
    requires g.Valid() && j < g.sectorsPerCluster && f < PerSector(g)
    requires k == q * PerCluster(g) + j * PerSector(g) + f
    ensures ClusterNo(g, k) == q && SectorNo(g, k) == j && EntryNo(g, k) == f
  {
    hide PerSector, PerCluster, Geometry.Valid, Geometry.ClusterLength;
    var e, c := PerSector(g), PerCluster(g);
    MulMono(j + 1, g.sectorsPerCluster, e);
    assert (j + 1) * e == j * e + e;
    DivModUnique(k, c, q, j * e + f);
    DivModUnique(j * e + f, e, j, f);
    Coordinates(g, k);
  }

  // ---- the bytes of entries -----------------------------------------------------------------

  /** Byte `o` of entry `k` of a directory is byte `32 * k + o` of its clusters; this is where. */
  lemma EntryOffsets(g: Geometry, k: nat, o: nat)
    requires g.Valid() && o < 32
    ensures 0 < g.ClusterLength() && 0 < g.size
    ensures (32 * k + o) / g.ClusterLength() == ClusterNo(g, k)
    ensures InClusterOffset(g, 32 * k + o) == SectorNo(g, k) * g.size + (32 * EntryNo(g, k) + o)
    ensures InSectorOffset(g, 32 * k + o) == 32 * EntryNo(g, k) + o
    ensures InClusterOffset(g, 32 * k + o) / g.size == SectorNo(g, k)
  {
    hide PerSector, PerCluster, Geometry.Valid, Geometry.ClusterLength, ClusterNo, SectorNo, EntryNo;
    Split(g, k);
    LengthPositive(g);
    SizePositive(g);
    var q, j, f := ClusterNo(g, k), SectorNo(g, k), EntryNo(g, k);
    var p := j * g.size + (32 * f + o);
    assert j * g.size == 32 * (j * PerSector(g));
    assert q * g.ClusterLength() == 32 * (q * PerCluster(g));
    assert 32 * k + o == q * g.ClusterLength() + p;
    assert 32 * f + o < g.size;
    PlaceInCluster(g, j, 32 * f + o);
    DivModUnique(32 * k + o, g.ClusterLength(), q, p);
    DivModUnique(p, g.size, j, 32 * f + o);
    SectorOffset(g, 32 * k + o);
  }

  lemma PlaceInCluster(g: Geometry, j: nat, o: nat)
    requires g.Valid() && j < g.sectorsPerCluster && o < g.size
    ensures j * g.size + o < g.ClusterLength()
  {
    MulMono(j + 1, g.sectorsPerCluster, g.size);
    assert (j + 1) * g.size == j * g.size + g.size;
  }

  /** The cursor machinery of files, applied to the entries of a directory. */
  lemma EntryCursor(g: Geometry, dir: seq<nat>, k: nat, o: nat)
    requires g.Valid() && AllStore(g, dir) && k < Capacity(g, dir) && o < 32
    ensures ClusterNo(g, k) < |dir| && g.Stores(dir[ClusterNo(g, k)]) && dir[ClusterNo(g, k)] in dir
    ensures var c := dir[ClusterNo(g, k)];
            && SectorOfCursor(g, c, 32 * k + o) == PlaceOf(g, dir, k).sector
            && InSectorOffset(g, 32 * k + o) == 32 * PlaceOf(g, dir, k).offset + o
            && 0 < g.ClusterLength()
            && InCluster(dir, g.ClusterLength(), 32 * k + o, c, g.ClusterLength() - (32 * k + o) % g.ClusterLength())
    ensures 32 * k + o < |dir| * g.ClusterLength()
  {
    hide PerSector, PerCluster, Geometry.Valid, Geometry.ClusterLength, ClusterNo, SectorNo, EntryNo, Geometry.Stores;
    IndexInDir(g, dir, k);
    assert dir[ClusterNo(g, k)] in dir;
    EntryOffsets(g, k, o);
    MulMono(k + 1, Capacity(g, dir), 32);
    assert |dir| * g.ClusterLength() == 32 * (|dir| * PerCluster(g));
  }

  /** The entries of a directory. */
  ghost function Entries(d: seq<Block>, g: Geometry, dir: seq<nat>): (es: seq<RawEntry>)
    requires g.Valid() && Good(d, g) && AllStore(g, dir)
    ensures |es| == Capacity(g, dir)
  {
    StoresBacked(d, g, dir);
    LengthPositive(g);
    EntriesIn(Raw(Abs(d, g).data, dir, g.ClusterLength()), g, dir)
  }

  ghost function EntriesIn(raw: seq<byte>, g: Geometry, dir: seq<nat>): (es: seq<RawEntry>)
    requires g.Valid() && |raw| == |dir| * g.ClusterLength()
    ensures |es| == Capacity(g, dir)
    ensures forall k :: 0 <= k < |es| ==> 32 * k + 32 <= |raw| && es[k] == raw[32 * k..32 * k + 32]
  {
    assert |raw| == 32 * Capacity(g, dir) by { assert |dir| * g.ClusterLength() == 32 * (|dir| * PerCluster(g)); }
    seq(Capacity(g, dir), k requires 0 <= k < Capacity(g, dir) => raw[32 * k..32 * k + 32])
  }

  lemma EntryByte(d: seq<Block>, g: Geometry, dir: seq<nat>, k: nat, o: nat)
    requires g.Valid() && Good(d, g) && AllStore(g, dir) && k < Capacity(g, dir) && o < 32
    ensures var p := PlaceOf(g, dir, k);
            && p.sector < |d| && 32 * p.offset + o < |d[p.sector]|
            && Entries(d, g, dir)[k][o] == d[p.sector][32 * p.offset + o]
  {
    hide PerSector, PerCluster, Geometry.Valid, Geometry.ClusterLength, ClusterNo, SectorNo, EntryNo, Geometry.Stores,
         PlaceOf, SectorOfCursor, Abs, Capacity;
    EntryCursor(g, dir, k, o);
    var c, cl := dir[ClusterNo(g, k)], g.ClusterLength();
    StoresBacked(d, g, dir);
    var left := cl - (32 * k + o) % cl;
    DivModFacts(32 * k + o, cl);
    assert PlacedAt(g, dir, 32 * k + o, c, left);
    ByteOfChain(d, g, dir, 32 * k + o, c, left, 0);
    assert Entries(d, g, dir)[k][o] == Raw(Abs(d, g).data, dir, cl)[32 * k + o];
  }

  /** Entry `k` of a directory, byte by byte: entries are 32 bytes long and fill the sectors of the clusters. */
  lemma EntryPlace(d: seq<Block>, g: Geometry, dir: seq<nat>, k: nat, o: nat)
    requires g.Valid() && Good(d, g) && AllStore(g, dir) && k < Capacity(g, dir) && o < 32
    ensures var n := g.size / 32;
            && 0 < n && 0 < n * g.sectorsPerCluster && 0 <= k / (n * g.sectorsPerCluster) < |dir|
            && var c := dir[k / (n * g.sectorsPerCluster)];
            && c >= 2
            && var s := g.heapOffset + (c - 2) * g.sectorsPerCluster + k % (n * g.sectorsPerCluster) / n;
            && 0 <= s < |d| && 0 <= 32 * (k % n) + o < |d[s]| && Entries(d, g, dir)[k][o] == d[s][32 * (k % n) + o]
  {
    hide Entries, Geometry.Valid;
    EntryByte(d, g, dir, k, o);
    IndexInDir(g, dir, k);
    assert dir[ClusterNo(g, k)] in dir;
    assert PerCluster(g) == g.size / 32 * g.sectorsPerCluster;
  }

  /** An entry is read from its location. */
  lemma EntryRead(d: seq<Block>, g: Geometry, dir: seq<nat>, k: nat)
    requires g.Valid() && Good(d, g) && AllStore(g, dir) && k < Capacity(g, dir)
    ensures var p := PlaceOf(g, dir, k);
            && p.sector < |d| && |d[p.sector]| == g.size && 32 * p.offset + 32 <= g.size
            && Entries(d, g, dir)[k] == d[p.sector][32 * p.offset..32 * p.offset + 32]
  {
    hide Geometry.Valid, Entries, PlaceOf, AllStore, Capacity;
    var p, x := PlaceOf(g, dir, k), Entries(d, g, dir)[k];
    EntryByte(d, g, dir, k, 31);
    var y := d[p.sector][32 * p.offset..32 * p.offset + 32];
    forall o | 0 <= o < 32 ensures x[o] == y[o] {
      EntryByte(d, g, dir, k, o);
    }
  }

  // ---- changing an entry -----------------------------------------------------------------------

  /** Overwriting bytes of one entry on the disk changes that entry and no other, and nothing else
      on the volume. */
  lemma EntryPatched(d: seq<Block>, g: Geometry, dir: seq<nat>, k: nat, o: nat, x: seq<byte>)
    requires g.Valid() && Good(d, g) && AllStore(g, dir) && Distinct(dir) && k < Capacity(g, dir) && o + |x| <= 32
    requires o < 32
    ensures var p := PlaceOf(g, dir, k);
            && p.sector < |d| && g.KindOf(p.sector) == Kind.Data && |d[p.sector]| == g.size
                && 32 * p.offset + o + |x| <= g.size
            && var d' := d[p.sector := Splice(d[p.sector], 32 * p.offset + o, x)];
            && Good(d', g) && OnlyData(Abs(d, g), Abs(d', g), dir)
            && Entries(d', g, dir) == Entries(d, g, dir)[k := Splice(Entries(d, g, dir)[k], o, x)]
  {
    hide PerSector, PerCluster, Geometry.Valid, Geometry.KindOf, Geometry.ClusterLength, ClusterNo, SectorNo, EntryNo,
         Geometry.Stores, PlaceOf, SectorOfCursor, Abs, Capacity, InSectorOffset, InClusterOffset, Patched, Wrote,
         OnlyData, Raw, InCluster;
    EntryRead(d, g, dir, k);
    EntryCursor(g, dir, k, o);
    var c, cl, at := dir[ClusterNo(g, k)], g.ClusterLength(), 32 * k + o;
    SectorPatched(d, g, c, at, x);
    var p := PlaceOf(g, dir, k);
    var d' := d[p.sector := Splice(d[p.sector], 32 * p.offset + o, x)];
    OnlyDataPatched(Abs(d, g), Abs(d', g), dir, c, InClusterOffset(g, at), x);
    StoresBacked(d, g, dir);
    EntryRoom(g, k, o, |x|);
    WroteChunk(Abs(d, g), Abs(d', g), dir, cl, at, c, cl - at % cl, x);
    EntriesSpliced(d, d', g, dir, k, o, x);
  }

  lemma EntryRoom(g: Geometry, k: nat, o: nat, n: nat)
    requires g.Valid() && o < 32 && o + n <= 32
    ensures 0 < g.ClusterLength() && 0 <= (32 * k + o) % g.ClusterLength()
    ensures n <= g.ClusterLength() - (32 * k + o) % g.ClusterLength()
    ensures InClusterOffset(g, 32 * k + o) == (32 * k + o) % g.ClusterLength()
  {
    hide PerSector, PerCluster, Geometry.Valid, Geometry.ClusterLength, ClusterNo, SectorNo, EntryNo;
    EntryOffsets(g, k, o);
    PlaceInCluster(g, SectorNo(g, k), 32 * EntryNo(g, k) + 31);
  }

  lemma EntriesSpliced(d: seq<Block>, d': seq<Block>, g: Geometry, dir: seq<nat>, k: nat, o: nat, x: seq<byte>)
    requires g.Valid() && Good(d, g) && Good(d', g) && AllStore(g, dir) && k < Capacity(g, dir) && o + |x| <= 32
    requires 0 < g.ClusterLength() && Wrote(Abs(d, g), Abs(d', g), dir, g.ClusterLength(), 32 * k + o, x)
    ensures Entries(d', g, dir) == Entries(d, g, dir)[k := Splice(Entries(d, g, dir)[k], o, x)]
  {
    hide Abs, Geometry.Valid, Geometry.ClusterLength, Capacity, Geometry.Stores;
    var raw := Raw(Abs(d, g).data, dir, g.ClusterLength());
    var es, es' := Entries(d, g, dir), Entries(d', g, dir);
    forall j: nat | j < |es| ensures es'[j] == if j == k then Splice(es[k], o, x) else es[j] {
      assert es'[j] == Splice(raw, 32 * k + o, x)[32 * j..32 * j + 32];
    }
  }

  // ---- from locations back to entries -------------------------------------------------------------

  /** Different entries are at different locations. */
  lemma PlacesDiffer(g: Geometry, dir: seq<nat>, j: nat, k: nat)
    requires g.Valid() && AllStore(g, dir) && Distinct(dir) && j < Capacity(g, dir) && k < Capacity(g, dir)
    requires PlaceOf(g, dir, j) == PlaceOf(g, dir, k)
    ensures j == k
  {
    hide PerSector, PerCluster, Geometry.Valid, ClusterNo, SectorNo, EntryNo, Capacity;
    IndexInDir(g, dir, j);
    IndexInDir(g, dir, k);
    var a, b := dir[ClusterNo(g, j)], dir[ClusterNo(g, k)];
    assert a in dir && b in dir;
    if a < b { ClustersApart(g, a, b); }
    if b < a { ClustersApart(g, b, a); }
    assert ClusterNo(g, j) == ClusterNo(g, k);
    Split(g, j);
    Split(g, k);
  }

  /** The entry at a location. */
  ghost function IndexAt(g: Geometry, dir: seq<nat>, loc: Location): nat {
    if g.Valid() && AllStore(g, dir) && exists k: nat :: k < Capacity(g, dir) && PlaceOf(g, dir, k) == loc
    then
      var k: nat :| k < Capacity(g, dir) && PlaceOf(g, dir, k) == loc;
      k
    else 0
  }

  lemma IndexAtPlace(g: Geometry, dir: seq<nat>, k: nat)
    requires g.Valid() && AllStore(g, dir) && Distinct(dir) && k < Capacity(g, dir)
    ensures IndexAt(g, dir, PlaceOf(g, dir, k)) == k
  {
    hide PlaceOf, Capacity;
    PlacesDiffer(g, dir, IndexAt(g, dir, PlaceOf(g, dir, k)), k);
  }
}
