/** The layout of a volume and the meaning of its raw sectors: which clusters the allocation
    bitmap marks, what the FAT holds, and the bytes of every data cluster. */
module Disk {
  import opened Bytes

  const FIRST_CLUSTER_ID: nat := 2
  const END_OF_CHAIN: nat := 0xFFFF_FFFF
  const MAX_CLUSTER_ID: nat := 0xFFFF_FFF6
  const NO_CLUSTER_ID: nat := 0

  /** What a sector is used for, and so which of the three caches serves it. */
  datatype Kind = Bitmap | Fat | Data

  /** Where a directory entry is: a sector, and how many entries to skip in it. */
  datatype Location = Location(sector: nat, offset: nat)

  datatype Geometry = Geometry(
    size: nat,            // bytes in a sector
    deviceSectors: nat,
    fatOffset: nat,
    fatLength: nat,       // sectors of the FAT
    heapOffset: nat,
    sectorsPerCluster: nat,
    clusterCount: nat,
    bitmapCluster: nat,   // first cluster of the allocation bitmap
    bitmapSectors: nat)
  {
    /** Sector numbers and cluster lengths fit in 32 bits, regions fit the device, and the FAT
        does not overlap the cluster heap. */
    predicate Valid() {
      && 0 < size && size % 32 == 0
      && 0 < sectorsPerCluster && ClusterLength() < TWO32
      && deviceSectors <= TWO32
      && clusterCount <= MAX_CLUSTER_ID - 1
      && HeapEnd() <= deviceSectors
      && fatOffset + fatLength <= deviceSectors
      && EndCluster() <= fatLength * FatEntries()
      && (fatOffset + fatLength <= heapOffset || HeapEnd() <= fatOffset)
      && FIRST_CLUSTER_ID <= bitmapCluster
      && BitmapFirst() + bitmapSectors <= HeapEnd()
    }

    function ClusterLength(): nat { size * sectorsPerCluster }

    function HeapEnd(): nat { heapOffset + clusterCount * sectorsPerCluster }

    /** One past the last cluster id of the heap. */
    function EndCluster(): nat { FIRST_CLUSTER_ID + clusterCount }

    function HeapSector(c: nat): (s: nat)
      requires FIRST_CLUSTER_ID <= c
      ensures heapOffset <= s
    {
      heapOffset + (c - FIRST_CLUSTER_ID) * sectorsPerCluster
    }

    function FatEntries(): nat { size / 4 }

    function BitmapFirst(): (s: nat)
      requires FIRST_CLUSTER_ID <= bitmapCluster
      ensures heapOffset <= s
    {
      HeapSector(bitmapCluster)
    }

    function BitsPerSector(): nat { size * 8 }

    /** One past the last cluster id that both the heap and the bitmap have room for. */
    function BitEnd(): (e: nat) {
      FIRST_CLUSTER_ID +
      if clusterCount <= bitmapSectors * BitsPerSector() then clusterCount
      else bitmapSectors * BitsPerSector()
    }

    function KindOf(s: nat): Kind
      requires Valid()
    {
      if BitmapFirst() <= s < BitmapFirst() + bitmapSectors then Kind.Bitmap
      else if fatOffset <= s < fatOffset + fatLength then Kind.Fat
      else Kind.Data
    }

    /** Clusters whose sectors all lie outside the allocation bitmap: those that can hold data. */
    predicate Stores(c: nat)
      requires Valid()
    {
      && FIRST_CLUSTER_ID <= c < EndCluster()
      && (HeapSector(c) + sectorsPerCluster <= BitmapFirst()
          || BitmapFirst() + bitmapSectors <= HeapSector(c))
    }
  }

  /** A volume of 32 clusters of one 512-byte sector each; the bitmap has the first cluster. */
  function SmallVolume(): (g: Geometry)
    ensures g.Valid() && g.size == 512 && g.ClusterLength() == 512
  {
    Geometry(512, 64, 24, 8, 32, 1, 32, 2, 1)
  }

  /** A disk holds exactly the sectors of the device, all of the same length. */
  predicate Good(d: seq<Block>, g: Geometry) {
    |d| == g.deviceSectors && forall s :: 0 <= s < |d| ==> |d[s]| == g.size
  }

  // ---- where things are -----------------------------------------------------

  function FatSectorOf(g: Geometry, c: nat): (s: nat)
    requires g.Valid() && c < g.EndCluster()
    ensures s < g.deviceSectors && g.KindOf(s) == Kind.Fat
  {
    FatSectorInRange(g, c);
    g.fatOffset + c / g.FatEntries()
  }

  lemma FatSectorInRange(g: Geometry, c: nat)
    requires g.Valid() && c < g.EndCluster()
    ensures 0 <= c / g.FatEntries() < g.fatLength
  {
    DivLess(c, g.FatEntries(), g.fatLength);
  }

  function FatByteOf(g: Geometry, c: nat): (o: nat)
    requires g.Valid()
    ensures o + 4 <= g.size
  {
    4 * (c % g.FatEntries())
  }

  function DataSectorOf(g: Geometry, c: nat, o: nat): (s: nat)
    requires g.Valid() && FIRST_CLUSTER_ID <= c < g.EndCluster() && o < g.ClusterLength()
    ensures g.HeapSector(c) <= s < g.HeapSector(c) + g.sectorsPerCluster
    ensures s < g.HeapEnd()
    ensures g.Stores(c) ==> g.KindOf(s) == Kind.Data
  {
    SectorInCluster(g, c, o);
    var s := g.HeapSector(c) + o / g.size;
    HeapSectorKind(g, c, s);
    s
  }

  lemma HeapSectorKind(g: Geometry, c: nat, s: nat)
    requires g.Valid() && FIRST_CLUSTER_ID <= c
    requires g.HeapSector(c) <= s < g.HeapSector(c) + g.sectorsPerCluster && s < g.HeapEnd()
    ensures g.Stores(c) ==> g.KindOf(s) == Kind.Data
  {
  }

  lemma SectorInCluster(g: Geometry, c: nat, o: nat)
    requires 0 < g.size && FIRST_CLUSTER_ID <= c < g.EndCluster() && o < g.ClusterLength()
    ensures 0 <= o / g.size < g.sectorsPerCluster
    ensures g.HeapSector(c) + g.sectorsPerCluster <= g.HeapEnd()
  {
    DivLess(o, g.size, g.sectorsPerCluster);
    var i := c - FIRST_CLUSTER_ID;
    MulMono(i + 1, g.clusterCount, g.sectorsPerCluster);
    assert (i + 1) * g.sectorsPerCluster == i * g.sectorsPerCluster + g.sectorsPerCluster;
  }

  /** Different clusters have no sector in common. */
  lemma ClustersApart(g: Geometry, c: nat, c': nat)
    requires FIRST_CLUSTER_ID <= c < c'
    ensures g.HeapSector(c) + g.sectorsPerCluster <= g.HeapSector(c')
  {
    var i, j := c - FIRST_CLUSTER_ID, c' - FIRST_CLUSTER_ID;
    MulMono(i + 1, j, g.sectorsPerCluster);
    assert (i + 1) * g.sectorsPerCluster == i * g.sectorsPerCluster + g.sectorsPerCluster;
  }

  function BitSectorOf(g: Geometry, c: nat): (s: nat)
    requires g.Valid() && FIRST_CLUSTER_ID <= c < g.BitEnd()
    ensures s < g.deviceSectors && g.KindOf(s) == Kind.Bitmap
  {
    BitSectorInRange(g, c);
    g.BitmapFirst() + (c - FIRST_CLUSTER_ID) / g.BitsPerSector()
  }

  lemma BitSectorInRange(g: Geometry, c: nat)
    requires 0 < g.size && FIRST_CLUSTER_ID <= c < g.BitEnd()
    ensures 0 <= (c - FIRST_CLUSTER_ID) / g.BitsPerSector() < g.bitmapSectors
  {
    DivLess(c - FIRST_CLUSTER_ID, g.BitsPerSector(), g.bitmapSectors);
  }

  /** The bit number of cluster `c` within its bitmap sector. */
  function BitInSector(g: Geometry, c: nat): (b: nat)
    requires g.Valid() && FIRST_CLUSTER_ID <= c
    ensures b / 8 < g.size
  {
    DivModFacts(c - FIRST_CLUSTER_ID, g.BitsPerSector());
    (c - FIRST_CLUSTER_ID) % g.BitsPerSector()
  }

  /** Bit `b` of a sector, lowest-order bit of the first byte first. */
  predicate SectorBit(block: Block, b: nat)
    requires b / 8 < |block|
  {
    BitOf(block[b / 8], b % 8)
  }

  // ---- what the sectors mean ------------------------------------------------

  predicate Allocated(d: seq<Block>, g: Geometry, c: nat)
    requires g.Valid() && Good(d, g) && FIRST_CLUSTER_ID <= c < g.BitEnd()
  {
    SectorBit(d[BitSectorOf(g, c)], BitInSector(g, c))
  }

  function FatEntry(d: seq<Block>, g: Geometry, c: nat): (e: nat)
    requires g.Valid() && Good(d, g) && c < g.EndCluster()
    ensures e < TWO32
  {
    var o := FatByteOf(g, c);
    FromLE32(d[FatSectorOf(g, c)][o..o + 4])
  }

  function DataByte(d: seq<Block>, g: Geometry, c: nat, o: nat): byte
    requires g.Valid() && Good(d, g) && FIRST_CLUSTER_ID <= c < g.EndCluster() && o < g.ClusterLength()
  {
    d[DataSectorOf(g, c, o)][o % g.size]
  }

  // ---- the same in numbers ----------------------------------------------------

  /** Where the FAT entry of a cluster is. */
  lemma FatPlace(g: Geometry, c: nat)
    requires g.Valid() && c < g.EndCluster()
    ensures 4 <= g.size && FatSectorOf(g, c) == g.fatOffset + c / (g.size / 4) && FatByteOf(g, c) == 4 * (c % (g.size / 4))
  {
  }

  lemma SplitBits(i: nat, size: nat)
    requires 0 < size
    ensures i / (size * 8) == i / 8 / size && i % (size * 8) / 8 == i / 8 % size && i % (size * 8) % 8 == i % 8
  {
    var q, r := i / 8 / size, i / 8 % size;
    DivModFacts(i / 8, size);
    assert i == q * (size * 8) + (r * 8 + i % 8);
    DivModUnique(i, size * 8, q, r * 8 + i % 8);
  }

  lemma BitValue(v: byte, k: nat)
    requires k < 8
    ensures BitOf(v, k) <==> v as int / [1, 2, 4, 8, 16, 32, 64, 128][k] % 2 == 1
  {
    hide BitOf;
    BitQuotient(v, k);
    assert Pow2(3) == 8 && Pow2(7) == 16 * Pow2(3);
  }

  /** A cluster is allocated when its bit of the bitmap is set: the bits of a byte count from the least
      significant one, and those of cluster 2 is the first of the bitmap. */
  lemma BitPlace(d: seq<Block>, g: Geometry, c: nat)
    requires g.Valid() && Good(d, g) && FIRST_CLUSTER_ID <= c < g.BitEnd()
    ensures var i := c - 2;
            var s := g.heapOffset + (g.bitmapCluster - 2) * g.sectorsPerCluster + i / 8 / g.size;
            && 0 <= s < |d| && 0 <= i / 8 % g.size < |d[s]|
            && (Allocated(d, g, c) <==> d[s][i / 8 % g.size] as int / [1, 2, 4, 8, 16, 32, 64, 128][i % 8] % 2 == 1)
  {
    hide BitOf;
    var i := c - 2;
    SplitBits(i, g.size);
    BitValue(d[BitSectorOf(g, c)][i / 8 % g.size], i % 8);
  }

  /** Where a byte of a cluster is. */
  lemma BytePlace(d: seq<Block>, g: Geometry, c: nat, o: nat)
    requires g.Valid() && Good(d, g) && g.Stores(c) && o < g.ClusterLength()
    ensures var s := g.heapOffset + (c - 2) * g.sectorsPerCluster + o / g.size;
            && 0 <= s < |d| && 0 <= o % g.size < |d[s]|
            && o < |Abs(d, g).data[c]| && Abs(d, g).data[c][o] == d[s][o % g.size]
  {
    SectorInCluster(g, c, o);
  }

  /** The volume as the upper layers see it. `data` is empty for the clusters of the bitmap. */
  datatype Vol = Vol(alloc: set<nat>, fat: seq<nat>, data: seq<seq<byte>>)

  ghost function AllocSet(d: seq<Block>, g: Geometry): (a: set<nat>)
    requires g.Valid() && Good(d, g)
  {
    set c: nat | FIRST_CLUSTER_ID <= c < g.BitEnd() && Allocated(d, g, c)
  }

  ghost function FatTable(d: seq<Block>, g: Geometry): (f: seq<nat>)
    requires g.Valid() && Good(d, g)
    ensures |f| == g.EndCluster()
    ensures forall c: nat :: c < |f| ==> f[c] == FatEntry(d, g, c)
  {
    seq(g.EndCluster(), c requires 0 <= c < g.EndCluster() => FatEntry(d, g, c))
  }

  ghost function ClusterData(d: seq<Block>, g: Geometry, c: nat): (b: seq<byte>)
    requires g.Valid() && Good(d, g)
    ensures |b| == if g.Stores(c) then g.ClusterLength() else 0
    ensures forall o :: 0 <= o < |b| ==> b[o] == DataByte(d, g, c, o)
  {
    if g.Stores(c)
    then seq(g.ClusterLength(), o requires 0 <= o < g.ClusterLength() => DataByte(d, g, c, o))
    else []
  }

  ghost function DataTable(d: seq<Block>, g: Geometry): (t: seq<seq<byte>>)
    requires g.Valid() && Good(d, g)
    ensures |t| == g.EndCluster()
    ensures forall c: nat :: c < |t| ==> t[c] == ClusterData(d, g, c)
  {
    seq(g.EndCluster(), c requires 0 <= c < g.EndCluster() => ClusterData(d, g, c))
  }

  ghost function Abs(d: seq<Block>, g: Geometry): (v: Vol)
    requires g.Valid() && Good(d, g)
    ensures |v.fat| == |v.data| == g.EndCluster()
  {
    Vol(AllocSet(d, g), FatTable(d, g), DataTable(d, g))
  }

  // ---- what changing one sector does ----------------------------------------

  /** A change outside the bitmap leaves every allocation bit alone. */
  lemma AllocFrame(d: seq<Block>, d': seq<Block>, g: Geometry)
    requires g.Valid() && Good(d, g) && Good(d', g)
    requires forall s :: 0 <= s < |d| && g.KindOf(s) == Kind.Bitmap ==> d'[s] == d[s]
    ensures AllocSet(d', g) == AllocSet(d, g)
  {
    forall c: nat | FIRST_CLUSTER_ID <= c < g.BitEnd()
      ensures Allocated(d', g, c) == Allocated(d, g, c)
    {
      assert g.KindOf(BitSectorOf(g, c)) == Kind.Bitmap;
    }
  }

  lemma FatFrame(d: seq<Block>, d': seq<Block>, g: Geometry)
    requires g.Valid() && Good(d, g) && Good(d', g)
    requires forall s :: 0 <= s < |d| && g.KindOf(s) == Kind.Fat ==> d'[s] == d[s]
    ensures FatTable(d', g) == FatTable(d, g)
  {
    forall c: nat | c < g.EndCluster()
      ensures FatEntry(d', g, c) == FatEntry(d, g, c)
    {
      assert g.KindOf(FatSectorOf(g, c)) == Kind.Fat;
    }
  }

  lemma DataFrameAt(d: seq<Block>, d': seq<Block>, g: Geometry, c: nat)
    requires g.Valid() && Good(d, g) && Good(d', g)
    requires g.Stores(c) ==>
               forall s :: g.HeapSector(c) <= s < g.HeapSector(c) + g.sectorsPerCluster && s < |d| ==> d'[s] == d[s]
    ensures ClusterData(d', g, c) == ClusterData(d, g, c)
  {
    if g.Stores(c) {
      forall o | 0 <= o < g.ClusterLength()
        ensures DataByte(d', g, c, o) == DataByte(d, g, c, o)
      {
        assert d'[DataSectorOf(g, c, o)] == d[DataSectorOf(g, c, o)];
      }
    }
  }

  lemma DataFrame(d: seq<Block>, d': seq<Block>, g: Geometry)
    requires g.Valid() && Good(d, g) && Good(d', g)
    requires forall s :: 0 <= s < |d| && g.KindOf(s) == Kind.Data ==> d'[s] == d[s]
    ensures DataTable(d', g) == DataTable(d, g)
  {
    hide Geometry.Valid, Geometry.KindOf, Geometry.Stores, Good, ClusterData;
    forall c: nat | c < g.EndCluster()
      ensures ClusterData(d', g, c) == ClusterData(d, g, c)
    {
      StoredFrame(d, d', g, c);
    }
  }

  lemma StoredFrame(d: seq<Block>, d': seq<Block>, g: Geometry, c: nat)
    requires g.Valid() && Good(d, g) && Good(d', g) && c < g.EndCluster()
    requires forall s :: 0 <= s < |d| && g.KindOf(s) == Kind.Data ==> d'[s] == d[s]
    ensures ClusterData(d', g, c) == ClusterData(d, g, c)
  {
    if g.Stores(c) {
      SectorInCluster(g, c, 0);
      forall s | g.HeapSector(c) <= s < g.HeapSector(c) + g.sectorsPerCluster && s < |d| ensures d'[s] == d[s] {
        HeapSectorKind(g, c, s);
      }
      DataFrameAt(d, d', g, c);
    }
  }

  /** Overwriting the four bytes of a FAT entry changes that entry and nothing else. */
  lemma StoreFatEntry(d: seq<Block>, g: Geometry, c: nat, v: nat)
    requires g.Valid() && Good(d, g) && c < g.EndCluster() && v < TWO32
    ensures var s := FatSectorOf(g, c);
            var d' := d[s := Splice(d[s], FatByteOf(g, c), LE32(v))];
            Good(d', g) && Abs(d', g) == Abs(d, g).(fat := Abs(d, g).fat[c := v])
  {
    var s := FatSectorOf(g, c);
    var o := FatByteOf(g, c);
    var d' := d[s := Splice(d[s], o, LE32(v))];
    AllocFrame(d, d', g);
    DataFrame(d, d', g);
    forall x: nat | x < g.EndCluster()
      ensures FatEntry(d', g, x) == if x == c then v else FatEntry(d, g, x)
    {
      FatEntryAfterStore(d, d', g, c, v, x);
    }
    assert FatTable(d', g) == FatTable(d, g)[c := v];
  }

  lemma FatEntryAfterStore(d: seq<Block>, d': seq<Block>, g: Geometry, c: nat, v: nat, x: nat)
    requires g.Valid() && Good(d, g) && c < g.EndCluster() && x < g.EndCluster() && v < TWO32
    requires d' == d[FatSectorOf(g, c) := Splice(d[FatSectorOf(g, c)], FatByteOf(g, c), LE32(v))]
    ensures Good(d', g)
    ensures FatEntry(d', g, x) == if x == c then v else FatEntry(d, g, x)
  {
    var s, o := FatSectorOf(g, c), FatByteOf(g, c);
    var t, p := FatSectorOf(g, x), FatByteOf(g, x);
    if x == c {
      assert d'[s][o..o + 4] == LE32(v);
      LE32RoundTrip(v);
    } else if t == s {
      DivModFacts(c, g.FatEntries());
      DivModFacts(x, g.FatEntries());
      assert p != o;
      assert d'[t][p..p + 4] == d[t][p..p + 4];
    }
  }

  /** Overwriting bytes inside one sector of a data cluster changes those bytes of that cluster
      and nothing else. */
  lemma StoreData(d: seq<Block>, g: Geometry, c: nat, o: nat, x: seq<byte>)
    requires g.Valid() && Good(d, g) && g.Stores(c) && o < g.ClusterLength()
    requires o % g.size + |x| <= g.size
    ensures o + |x| <= g.ClusterLength()
    ensures var s := DataSectorOf(g, c, o);
            var d' := d[s := Splice(d[s], o % g.size, x)];
            Good(d', g) &&
            Abs(d', g) == Abs(d, g).(data := Abs(d, g).data[c := Splice(Abs(d, g).data[c], o, x)])
  {
    var s := DataSectorOf(g, c, o);
    var d' := d[s := Splice(d[s], o % g.size, x)];
    WithinSector(g, o, |x|);
    AllocFrame(d, d', g);
    FatFrame(d, d', g);
    forall k: nat | k < g.EndCluster() && k != c
      ensures ClusterData(d', g, k) == ClusterData(d, g, k)
    {
      if g.Stores(k) {
        if k < c { ClustersApart(g, k, c); } else { ClustersApart(g, c, k); }
        DataFrameAt(d, d', g, k);
      }
    }
    forall p | 0 <= p < g.ClusterLength()
      ensures DataByte(d', g, c, p) == if o <= p < o + |x| then x[p - o] else DataByte(d, g, c, p)
    {
      DataByteAfterStore(d, d', g, c, o, x, p);
    }
    assert ClusterData(d', g, c) == Splice(ClusterData(d, g, c), o, x);
    assert DataTable(d', g) == DataTable(d, g)[c := Splice(ClusterData(d, g, c), o, x)];
  }

  lemma WithinSector(g: Geometry, o: nat, n: nat)
    requires g.Valid() && o < g.ClusterLength() && o % g.size + n <= g.size
    ensures o + n <= g.ClusterLength()
  {
    DivLess(o, g.size, g.sectorsPerCluster);
    DivModFacts(o, g.size);
    MulMono(o / g.size + 1, g.sectorsPerCluster, g.size);
    assert (o / g.size + 1) * g.size == (o / g.size) * g.size + g.size;
  }

  lemma DataByteAfterStore(d: seq<Block>, d': seq<Block>, g: Geometry, c: nat, o: nat, x: seq<byte>, p: nat)
    requires g.Valid() && Good(d, g) && g.Stores(c) && o < g.ClusterLength() && p < g.ClusterLength()
    requires o % g.size + |x| <= g.size
    requires d' == d[DataSectorOf(g, c, o) := Splice(d[DataSectorOf(g, c, o)], o % g.size, x)]
    ensures Good(d', g)
    ensures DataByte(d', g, c, p) == if o <= p < o + |x| then x[p - o] else DataByte(d, g, c, p)
  {
    DivModFacts(o, g.size);
    DivModFacts(p, g.size);
    if o / g.size < p / g.size {
      MulMono(o / g.size + 1, p / g.size, g.size);
      assert (o / g.size + 1) * g.size == (o / g.size) * g.size + g.size;
    } else if p / g.size < o / g.size {
      MulMono(p / g.size + 1, o / g.size, g.size);
      assert (p / g.size + 1) * g.size == (p / g.size) * g.size + g.size;
    }
  }

  /** Replacing a bitmap sector leaves the FAT and the data alone and changes the bits as the
      new sector says. */
  lemma StoreBitmap(d: seq<Block>, g: Geometry, k: nat, b: Block)
    requires g.Valid() && Good(d, g) && k < g.bitmapSectors && |b| == g.size
    ensures var d' := d[g.BitmapFirst() + k := b];
            && Good(d', g)
            && Abs(d', g) == Abs(d, g).(alloc := AllocSet(d', g))
            && forall c: nat :: FIRST_CLUSTER_ID <= c < g.BitEnd() ==>
                 Allocated(d', g, c) ==
                   if BitSectorOf(g, c) == g.BitmapFirst() + k then SectorBit(b, BitInSector(g, c))
                   else Allocated(d, g, c)
  {
    var d' := d[g.BitmapFirst() + k := b];
    FatFrame(d, d', g);
    DataFrame(d, d', g);
  }
}
