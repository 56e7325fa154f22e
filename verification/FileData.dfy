/** What the clusters of an open file hold, on values: growing a chain, the bytes written and read
    through it, where the cursor is, and the lengths (src/file.rs). */
module FileData {
  import opened Allocator
  import opened Bytes
  import opened Chains
  import opened Cursor
  import opened Disk
  import opened FatAccess
  import opened FreeSearch
  import opened Results
  import opened Touched
  import opened Volume

  // ---- growing a chain, on values --------------------------------------------------

  /** All of the clusters can hold data: none of them is part of the allocation bitmap. */
  ghost predicate AllStore(g: Geometry, cs: seq<nat>)
    requires g.Valid()
  {
    forall c :: c in cs ==> g.Stores(c)
  }

  /** The clusters a file holds: what its chain stands for, all allocated, all able to hold data. */
  ghost predicate Held(v: Vol, g: Geometry, chain: StoredChain, noFat: bool, cs: seq<nat>)
    requires g.Valid()
  {
    && Rep(v.fat, chain, noFat, cs)
    && SetOf(cs) <= v.alloc
    && AllStore(g, cs)
  }

  /** The clusters of the allocation bitmap itself are never free. */
  ghost predicate BitmapHeld(alloc: set<nat>, g: Geometry)
    requires g.Valid()
  {
    forall c: nat :: FIRST_CLUSTER_ID <= c < g.BitEnd() && c !in alloc ==> g.Stores(c)
  }

  /** `cs` is linked except that its last entry may say anything. */
  ghost predicate LinkedButLast(fat: seq<nat>, cs: seq<nat>)
    requires InHeap(cs, |fat|)
  {
    forall i :: 0 <= i < |cs| - 1 ==> fat[cs[i]] == After(cs, i, END_OF_CHAIN)
  }

  ghost function LastOf(cs: seq<nat>): Option<nat> {
    if cs == [] then None else Some(cs[|cs| - 1])
  }

  /** The last cluster, as `update_chain` computes it from the shape alone. */
  function TailOf(chain: StoredChain): Option<nat>
    requires chain.Contiguous? ==> chain.first + chain.count > 0
  {
    match chain
    case Empty => None
    case Contiguous(first, count) => Some(first + count - 1)
    case Fat(_, last, _) => Some(last)
  }

  lemma TailIsLast(fat: seq<nat>, chain: StoredChain, noFat: bool, cs: seq<nat>)
    requires Rep(fat, chain, noFat, cs)
    ensures chain.Contiguous? ==> chain.first + chain.count > 0
    ensures TailOf(chain) == LastOf(cs)
  {
  }

  lemma RepLinks(fat: seq<nat>, chain: StoredChain, noFat: bool, cs: seq<nat>)
    requires Rep(fat, chain, noFat, cs)
    ensures Distinct(cs) && InHeap(cs, |fat|)
    ensures !noFat ==> LinkedButLast(fat, cs)
    ensures cs == [] ==> LinkedButLast(fat, cs)
    ensures chain.Empty? <==> cs == []
  {
  }

  lemma ConvertedLinks(fat: seq<nat>, fat': seq<nat>, first: nat, count: nat)
    requires count > 0 && InHeap(RunSeq(first, count), |fat|) && Joined(fat, fat', first, count - 1)
    ensures LinkedButLast(fat', RunSeq(first, count))
  {
  }

  /** Appending a run to a chain that is linked up to its last entry links the longer chain, and
      touches no entry outside it. */
  lemma GrowLinked(fat: seq<nat>, fat': seq<nat>, cs: seq<nat>, first: nat, count: nat)
    requires count > 0 && FIRST_CLUSTER_ID <= first && first + count <= |fat|
    requires InHeap(cs, |fat|) && Distinct(cs) && LinkedButLast(fat, cs)
    requires forall c :: c in cs ==> !(first <= c < first + count)
    requires Appended(fat, fat', LastOf(cs), first, count)
    ensures InHeap(cs + RunSeq(first, count), |fat'|) && Distinct(cs + RunSeq(first, count))
    ensures Linked(fat', cs + RunSeq(first, count))
    ensures forall c: nat :: c < |fat| && c !in cs + RunSeq(first, count) ==> fat'[c] == fat[c]
  {
    var run := RunSeq(first, count);
    JoinDistinct(cs, first, count);
    assert Linked(fat', run);
    forall i | 0 <= i < |cs| ensures fat'[cs[i]] == After(cs, i, run[0]) {
      assert cs[i] in cs;
      if i + 1 < |cs| {
        assert cs[i] != cs[|cs| - 1];
        assert fat[cs[i]] == After(cs, i, END_OF_CHAIN);
      }
    }
    AppendLinked(fat', cs, run);
    RunMembers(first, count);
    forall c: nat | c < |fat| && c !in cs + run ensures fat'[c] == fat[c] {
      assert cs != [] ==> cs[|cs| - 1] in cs;
      assert c !in run;
    }
  }

  lemma RunMembers(first: nat, count: nat)
    ensures forall c: nat :: c in RunSeq(first, count) <==> first <= c < first + count
  {
    forall c: nat | first <= c < first + count ensures c in RunSeq(first, count) {
      assert RunSeq(first, count)[c - first] == c;
    }
  }

  lemma JoinDistinct(cs: seq<nat>, first: nat, count: nat)
    requires Distinct(cs) && forall c :: c in cs ==> !(first <= c < first + count)
    ensures Distinct(cs + RunSeq(first, count))
  {
    var all := cs + RunSeq(first, count);
    forall i, j | 0 <= i < j < |all| ensures all[i] != all[j] {
      if i < |cs| { assert cs[i] in cs; }
    }
  }

  lemma RunSeqJoin(first: nat, a: nat, b: nat)
    ensures RunSeq(first, a) + RunSeq(first + a, b) == RunSeq(first, a + b)
  {
  }

  /** The shape `update_chain` gives the chain after appending a run. */
  function Grown(chain: StoredChain, hasFat: bool, run: Run): StoredChain
    requires run.first + run.count > 0
  {
    match chain
    case Empty => Contiguous(run.first, run.count)
    case Contiguous(first, count) =>
      if hasFat then StoredChain.Fat(first, run.first + run.count - 1, count + run.count)
      else Contiguous(first, count + run.count)
    case Fat(first, _, count) => StoredChain.Fat(first, run.first + run.count - 1, count + run.count)
  }

  /** Growing keeps the FAT out of it when the flag stays set: the run is then adjacent. */
  lemma GrownContiguous(fat: seq<nat>, chain: StoredChain, cs: seq<nat>, run: Run)
    requires Rep(fat, chain, true, cs) && run.count > 0 && FIRST_CLUSTER_ID <= run.first
    requires run.first + run.count <= |fat|
    requires forall c :: c in cs ==> !InRun(run, c)
    requires chain.Contiguous? ==> chain.first + chain.count == run.first
    ensures Rep(fat, Grown(chain, false, run), true, cs + RunSeq(run.first, run.count))
  {
    JoinDistinct(cs, run.first, run.count);
    if chain.Contiguous? {
      RunSeqJoin(chain.first, chain.count, run.count);
    }
  }

  lemma GrownLinked(fat: seq<nat>, fat': seq<nat>, chain: StoredChain, noFat: bool, cs: seq<nat>, run: Run)
    requires Rep(fat, chain, noFat, cs) && run.count > 0 && FIRST_CLUSTER_ID <= run.first
    requires run.first + run.count <= |fat|
    requires |fat'| == |fat| && InHeap(cs + RunSeq(run.first, run.count), |fat'|)
    requires Distinct(cs + RunSeq(run.first, run.count))
    requires Linked(fat', cs + RunSeq(run.first, run.count))
    ensures Rep(fat', Grown(chain, true, run), false, cs + RunSeq(run.first, run.count))
  {
  }

  lemma LengthPositive(g: Geometry)
    requires g.Valid()
    ensures 0 < g.ClusterLength()
  {
  }

  // ---- free space --------------------------------------------------------------------

  ghost function FreeSet(alloc: set<nat>, g: Geometry): set<nat> {
    set c: nat | FIRST_CLUSTER_ID <= c < g.BitEnd() && c !in alloc
  }

  /** How many clusters are free. */
  ghost function FreeCount(alloc: set<nat>, g: Geometry): nat { |FreeSet(alloc, g)| }

  /** How many clusters `bytes` bytes take. */
  function ClustersFor(bytes: nat, g: Geometry): nat
    requires g.Valid()
  {
    LengthPositive(g);
    DivCeil(bytes, g.ClusterLength())
  }

  lemma TakeFree(alloc: set<nat>, g: Geometry, run: Run)
    requires Free(alloc, FIRST_CLUSTER_ID, g.BitEnd(), run.first, run.count)
    ensures FreeCount(alloc + Clusters(run), g) == FreeCount(alloc, g) - run.count
  {
    var f, t := FreeSet(alloc, g), Clusters(run);
    RunSize(run);
    assert t <= f;
    assert FreeSet(alloc + t, g) == f - t;
  }

  lemma NoneFreeIsEmpty(alloc: set<nat>, g: Geometry)
    ensures NoneFree(alloc, FIRST_CLUSTER_ID, g.BitEnd()) <==> FreeCount(alloc, g) == 0
  {
    forall c: nat | FIRST_CLUSTER_ID <= c < g.BitEnd() && c !in alloc ensures FreeCount(alloc, g) != 0 {
      assert c in FreeSet(alloc, g);
    }
  }

  function DivCeil(a: nat, b: nat): nat
    requires b > 0
  {
    a / b + if a % b == 0 then 0 else 1
  }

  /** A chain grew from `cs` to `cs'`: what was appended came from free clusters and is now
      allocated, no byte changed, and only the chain's own FAT entries changed. */
  ghost predicate Grew(v: Vol, v': Vol, cs: seq<nat>, cs': seq<nat>) {
    && cs <= cs'
    && v'.data == v.data && |v'.fat| == |v.fat|
    && v'.alloc == v.alloc + SetOf(cs'[|cs|..])
    && SetOf(cs'[|cs|..]) !! v.alloc
    && forall c: nat :: c < |v.fat| && c !in cs' ==> v'.fat[c] == v.fat[c]
  }

  lemma GrewTrans(v: Vol, v1: Vol, v2: Vol, cs: seq<nat>, cs1: seq<nat>, cs2: seq<nat>)
    requires Grew(v, v1, cs, cs1) && Grew(v1, v2, cs1, cs2)
    ensures Grew(v, v2, cs, cs2)
  {
    assert cs2[|cs|..] == cs1[|cs|..] + cs2[|cs1|..];
    assert SetOf(cs2[|cs|..]) == SetOf(cs1[|cs|..]) + SetOf(cs2[|cs1|..]);
    assert forall c :: c in cs1 ==> c in cs2;
  }

  lemma GrewRun(v: Vol, v': Vol, cs: seq<nat>, run: Run)
    requires v'.data == v.data && |v'.fat| == |v.fat| && v'.alloc == v.alloc + Clusters(run)
    requires Clusters(run) !! v.alloc
    requires forall c: nat :: c < |v.fat| && c !in cs + RunSeq(run.first, run.count) ==> v'.fat[c] == v.fat[c]
    ensures Grew(v, v', cs, cs + RunSeq(run.first, run.count))
  {
    RunMembers(run.first, run.count);
    assert (cs + RunSeq(run.first, run.count))[|cs|..] == RunSeq(run.first, run.count);
    assert SetOf(RunSeq(run.first, run.count)) == Clusters(run);
  }

  /** A free run is apart from everything allocated. */
  lemma FreeRun(alloc: set<nat>, g: Geometry, run: Run)
    requires g.Valid() && BitmapHeld(alloc, g)
    requires Free(alloc, FIRST_CLUSTER_ID, g.BitEnd(), run.first, run.count)
    ensures Clusters(run) !! alloc
    ensures forall c: nat :: InRun(run, c) ==> c !in alloc && g.Stores(c)
    ensures BitmapHeld(alloc + Clusters(run), g)
  {
  }

  /** Where `Allocator::allocate` looks for more clusters, given the chain's shape. */
  function SearchFrom(chain: StoredChain): Option<nat> {
    match chain
    case Empty => None
    case Contiguous(first, count) => Some(first + count)
    case Fat(_, last, _) => Some(last + 1)
  }

  /** What a file's directory entry records of it. */
  datatype FileDetails = FileDetails(
    firstCluster: nat,
    dataLength: nat,
    validDataLength: nat,  // bytes from here to dataLength read as zeros
    noFat: bool,           // GeneralSecondaryFlags::NoFatChain
    allocation: bool,      // GeneralSecondaryFlags::AllocationPossible
    location: Location,    // of the file's entry set
    secondaryCount: nat)   // how many entries the set has after the first

  /** Both describe the same entry set. */
  predicate SamePlace(f: FileDetails, f': FileDetails) {
    f'.location == f.location && f'.secondaryCount == f.secondaryCount && f'.allocation == f.allocation
  }

  // ---- bytes through a chain -------------------------------------------------------------

  /** The bytes `x` were written at position `at` of the chain `cs`, and nothing else changed: no
      FAT entry, no allocation bit, no byte of another cluster. */
  ghost predicate Wrote(v: Vol, v': Vol, cs: seq<nat>, cl: nat, at: nat, x: seq<byte>)
    requires 0 < cl
  {
    && v'.alloc == v.alloc && v'.fat == v.fat && |v'.data| == |v.data|
    && Backed(v.data, cs, cl) && Backed(v'.data, cs, cl)
    && at + |x| <= |cs| * cl
    && Raw(v'.data, cs, cl) == Splice(Raw(v.data, cs, cl), at, x)
    && forall c: nat :: c < |v.data| && c !in cs ==> v'.data[c] == v.data[c]
  }

  lemma WroteTrans(v: Vol, v1: Vol, v2: Vol, cs: seq<nat>, cl: nat, at: nat, x: seq<byte>, y: seq<byte>)
    requires 0 < cl && Wrote(v, v1, cs, cl, at, x) && Wrote(v1, v2, cs, cl, at + |x|, y)
    ensures Wrote(v, v2, cs, cl, at, x + y)
  {
    SpliceTwice(Raw(v.data, cs, cl), at, x, y);
  }

  lemma WroteNone(v: Vol, cs: seq<nat>, cl: nat, at: nat)
    requires 0 < cl && Backed(v.data, cs, cl) && at <= |cs| * cl
    ensures Wrote(v, v, cs, cl, at, [])
  {
  }

  /** Overwriting part of one data cluster is a write through the chain. */
  lemma WroteChunk(v: Vol, v': Vol, cs: seq<nat>, cl: nat, cursor: nat, current: nat, remaining: nat, x: seq<byte>)
    requires 0 < cl && Backed(v.data, cs, cl) && Distinct(cs)
    requires InCluster(cs, cl, cursor, current, remaining) && |x| <= remaining
    requires Patched(v, v', current, cursor % cl, x)
    ensures Wrote(v, v', cs, cl, cursor, x)
  {
    DivModFacts(cursor, cl);
    RawStore(v.data, cs, cl, cursor / cl, cursor % cl, x);
    assert current in cs;
  }

  /** How many bytes `write_partial_sector` takes of `n` offered: none when it could write a whole
      sector, otherwise as many as fit the sector the cursor is in. */
  function PartialLen(g: Geometry, cursor: nat, n: nat): (len: nat)
    requires g.Valid()
    ensures len <= n
  {
    var start := InSectorOffset(g, cursor);
    if start + n < g.size then n
    else if start > 0 then g.size - start
    else 0
  }

  lemma PartialFits(g: Geometry, cursor: nat, n: nat)
    requires g.Valid()
    ensures PartialLen(g, cursor, n) <= n && PartialLen(g, cursor, n) <= g.size - InSectorOffset(g, cursor)
  {
  }

  /** `At` for a volume's cluster length. */
  ghost predicate PlacedAt(g: Geometry, cs: seq<nat>, cursor: nat, current: nat, remaining: nat)
    requires g.Valid()
  {
    LengthPositive(g);
    At(cs, g.ClusterLength(), cursor, current, remaining)
  }

  lemma StoresBacked(d: seq<Block>, g: Geometry, cs: seq<nat>)
    requires g.Valid() && Good(d, g) && AllStore(g, cs)
    ensures Backed(Abs(d, g).data, cs, g.ClusterLength())
  {
    forall i | 0 <= i < |cs| ensures cs[i] < g.EndCluster() && |Abs(d, g).data[cs[i]]| == g.ClusterLength() {
      assert cs[i] in cs;
    }
  }

  // ---- reading, seeking and lengths -------------------------------------------------------

  lemma FatFirst(fat: seq<nat>, chain: StoredChain, noFat: bool, cs: seq<nat>)
    requires Rep(fat, chain, noFat, cs) && chain.Fat?
    ensures |cs| > 0 && cs[0] == chain.first
  {
  }

  function Min(a: nat, b: nat): nat { if a < b then a else b }

  lemma HeldStores(v: Vol, g: Geometry, chain: StoredChain, noFat: bool, cs: seq<nat>)
    requires g.Valid() && Held(v, g, chain, noFat, cs)
    ensures AllStore(g, cs)
  {
  }

  /** The contents of a file with clusters `cs` and lengths `d`. */
  ghost function Visible(d: seq<Block>, g: Geometry, cs: seq<nat>, f: FileDetails): (s: seq<byte>)
    requires g.Valid() && Good(d, g) && AllStore(g, cs)
    requires |cs| == ClustersFor(f.dataLength, g)
    ensures |s| == f.dataLength
  {
    LengthPositive(g);
    StoresBacked(d, g, cs);
    CeilBound(f.dataLength, g.ClusterLength());
    Seen(Raw(Abs(d, g).data, cs, g.ClusterLength()), f)
  }

  /** Valid bytes as they are, zeros from the valid length to the data length. */
  ghost function Seen(raw: seq<byte>, f: FileDetails): (s: seq<byte>)
    requires f.dataLength <= |raw|
    ensures |s| == f.dataLength
    ensures forall p :: 0 <= p < |s| ==> s[p] == if p < f.validDataLength then raw[p] else 0
  {
    seq(f.dataLength, p requires 0 <= p < f.dataLength => if p < f.validDataLength then raw[p] else 0)
  }

  /** The contents of a file, byte by byte from the disk: the valid bytes of its clusters in order, then zeros. */
  lemma VisibleBytes(d: seq<Block>, g: Geometry, cs: seq<nat>, f: FileDetails, p: nat)
    requires g.Valid() && Good(d, g) && AllStore(g, cs) && |cs| == ClustersFor(f.dataLength, g) && p < f.dataLength
    ensures var cl := g.size * g.sectorsPerCluster;
            && 0 < cl && 0 <= p / cl < |cs| && cs[p / cl] >= 2
            && var s := g.heapOffset + (cs[p / cl] - 2) * g.sectorsPerCluster + p % cl / g.size;
            && 0 <= s < |d| && 0 <= p % cl % g.size < |d[s]|
            && Visible(d, g, cs, f)[p] == if p < f.validDataLength then d[s][p % cl % g.size] else 0
  {
    hide Abs, Geometry.Valid;
    LengthPositive(g);
    var cl := g.ClusterLength();
    StoresBacked(d, g, cs);
    CeilBound(f.dataLength, cl);
    DivLess(p, cl, |cs|);
    DivModFacts(p, cl);
    assert cs[p / cl] in cs;
    BytePlace(d, g, cs[p / cl], p % cl);
  }

  lemma ZerosVisible(d: seq<Block>, g: Geometry, cs: seq<nat>, f: FileDetails, at: nat, x: seq<byte>)
    requires g.Valid() && Good(d, g) && AllStore(g, cs)
    requires |cs| == ClustersFor(f.dataLength, g)
    requires f.validDataLength <= at && at + |x| <= f.dataLength && forall i :: 0 <= i < |x| ==> x[i] == 0
    ensures x == Visible(d, g, cs, f)[at..at + |x|]
  {
  }

  /** Bytes taken from the current sector are the file's bytes at the cursor. */
  lemma ChunkVisible(d: seq<Block>, g: Geometry, cs: seq<nat>, f: FileDetails, cursor: nat, current: nat,
                     remaining: nat, x: seq<byte>)
    requires g.Valid() && Good(d, g) && AllStore(g, cs)
    requires |cs| == ClustersFor(f.dataLength, g)
    requires PlacedAt(g, cs, cursor, current, remaining) && remaining > 0 && current in cs
    requires InSectorOffset(g, cursor) + |x| <= g.size
    requires cursor + |x| <= f.validDataLength <= f.dataLength
    requires x == d[SectorOfCursor(g, current, cursor)][InSectorOffset(g, cursor)..InSectorOffset(g, cursor) + |x|]
    ensures x == Visible(d, g, cs, f)[cursor..cursor + |x|]
  {
    hide Visible, PlacedAt, InSectorOffset, SectorOfCursor, Geometry.Valid, ClustersFor, Geometry.Stores, Abs;
    ghost var off, sector := InSectorOffset(g, cursor), d[SectorOfCursor(g, current, cursor)];
    forall i | 0 <= i < |x| ensures x[i] == Visible(d, g, cs, f)[cursor + i] {
      VisibleAt(d, g, cs, f, cursor + i);
      ByteOfChain(d, g, cs, cursor, current, remaining, i);
      assert x[i] == sector[off + i];
    }
  }

  lemma VisibleAt(d: seq<Block>, g: Geometry, cs: seq<nat>, f: FileDetails, p: nat)
    requires g.Valid() && Good(d, g) && AllStore(g, cs)
    requires |cs| == ClustersFor(f.dataLength, g) && p < f.dataLength
    ensures 0 < g.ClusterLength() && Backed(Abs(d, g).data, cs, g.ClusterLength()) && p < |cs| * g.ClusterLength()
    ensures Visible(d, g, cs, f)[p] == if p < f.validDataLength then Raw(Abs(d, g).data, cs, g.ClusterLength())[p] else 0
  {
    LengthPositive(g);
    StoresBacked(d, g, cs);
    CeilBound(f.dataLength, g.ClusterLength());
  }

  lemma ByteOfChain(d: seq<Block>, g: Geometry, cs: seq<nat>, cursor: nat, current: nat, remaining: nat, i: nat)
    requires g.Valid() && Good(d, g) && AllStore(g, cs)
    requires PlacedAt(g, cs, cursor, current, remaining) && remaining > 0 && current in cs
    requires InSectorOffset(g, cursor) + i < g.size && cursor + i < |cs| * g.ClusterLength()
    requires 0 < g.ClusterLength() && Backed(Abs(d, g).data, cs, g.ClusterLength())
    ensures Raw(Abs(d, g).data, cs, g.ClusterLength())[cursor + i] ==
              d[SectorOfCursor(g, current, cursor)][InSectorOffset(g, cursor) + i]
  {
    var cl, o := g.ClusterLength(), InClusterOffset(g, cursor);
    AtInside(cs, cl, cursor, current, remaining);
    SectorOffset(g, cursor);
    DivModFacts(cursor, cl);
    DivModUnique(cursor + i, cl, cursor / cl, o + i);
    assert RawByte(Abs(d, g).data, cs, cl, cursor + i) == DataByte(d, g, current, o + i);
    DivModFacts(o, g.size);
    DivModUnique(o + i, g.size, o / g.size, o % g.size + i);
  }

  lemma PlacedMoved(g: Geometry, cs: seq<nat>, cursor: nat, current: nat, remaining: nat, n: nat)
    requires g.Valid() && PlacedAt(g, cs, cursor, current, remaining) && 0 < n <= remaining
    ensures PlacedAt(g, cs, cursor + n, current, remaining - n)
  {
    LengthPositive(g);
    AtInside(cs, g.ClusterLength(), cursor, current, remaining);
    Moved(cs, g.ClusterLength(), cursor, current, remaining, n);
  }

  lemma ClusterIndex(g: Geometry, n: nat, pos: nat)
    requires g.Valid() && 0 < g.ClusterLength()
    ensures 0 <= pos / g.ClusterLength()
    ensures pos / g.ClusterLength() < n <==> pos < n * g.ClusterLength()
  {
    var cl := g.ClusterLength();
    DivModFacts(pos, cl);
    if pos / cl < n {
      MulMono(pos / cl + 1, n, cl);
      assert (pos / cl + 1) * cl == (pos / cl) * cl + cl;
    } else {
      MulMono(n, pos / cl, cl);
    }
  }

  /** Where `seek` puts the cursor is right exactly when the chain has a cluster there. */
  lemma SeekPlaced(fat: seq<nat>, g: Geometry, chain: StoredChain, f: FileDetails, cs: seq<nat>, pos: nat,
                   current: nat, remaining: nat)
    requires g.Valid() && 0 < g.ClusterLength() && Rep(fat, chain, f.noFat, cs)
    requires |cs| == ClustersFor(f.dataLength, g) && pos <= f.validDataLength <= f.dataLength
    requires chain.Empty? ==> remaining == 0
    requires !chain.Empty? ==> remaining == g.ClusterLength() - InClusterOffset(g, pos)
    requires chain.Contiguous? ==> current == chain.first + pos / g.ClusterLength()
    requires chain.Fat? ==>
               pos < |cs| * g.ClusterLength() && 0 <= pos / g.ClusterLength() < |cs|
                   && current == cs[pos / g.ClusterLength()]
    ensures PlacedAt(g, cs, pos, current, remaining) <==> cs == [] || pos < |cs| * g.ClusterLength()
  {
    var cl := g.ClusterLength();
    ClusterIndex(g, |cs|, pos);
    CeilBound(f.dataLength, cl);
    SectorOffset(g, pos);
  }

  /** Seeking to the end of a file that fills its one cluster, cluster 5, leaves the cursor at the start of
      cluster 6, which is not the file's. */
  lemma SeekToFullEnd()
    ensures var g := SmallVolume();
            && g.Valid() && ClustersFor(512, g) == |[5]| && Rep(seq(34, i => 0), Contiguous(5, 1), true, [5])
            && !PlacedAt(g, [5], 512, 5 + 512 / g.ClusterLength(), g.ClusterLength() - InClusterOffset(g, 512))
  {
    var g, cs := SmallVolume(), RunSeq(5, 1);
    assert cs == [5];
    SeekPlaced(seq(34, i => 0), g, Contiguous(5, 1), FileDetails(5, 512, 512, true, true, Location(0, 0), 2), cs,
        512, 6, 512);
  }

  /** The lengths after writing up to position `end`. */
  function Longer(d: FileDetails, end: nat): FileDetails {
    var valid := if end > d.validDataLength then end else d.validDataLength;
    d.(dataLength := if valid > d.dataLength then valid else d.dataLength, validDataLength := valid)
  }

  /** What a write of `n` bytes comes to. */
  ghost function WriteOutcome(g: Geometry, canWrite: bool, have: nat, cursor: nat, n: nat, free: nat): Result<()>
    requires g.Valid()
  {
    if n == 0 then Ok(())
    else if !canWrite then Err(WriteNotEnabled)
    else if Shortfall(g, have, cursor + n) > free then Err(DiskFull)
    else if BadTail(g, cursor, n) then Err(Underflow)
    else Ok(())
  }

  /** Between `v` and `v'` the only things that changed are the file's own: its chain grew from
      `cs` to `cs'` by free clusters, and no FAT entry or byte outside `cs'` is different. */
  ghost predicate OnlyOwn(v: Vol, v': Vol, cs: seq<nat>, cs': seq<nat>) {
    && cs <= cs' && |v'.fat| == |v.fat| && |v'.data| == |v.data|
    && v'.alloc == v.alloc + SetOf(cs'[|cs|..])
    && SetOf(cs'[|cs|..]) !! v.alloc
    && (forall c: nat :: c < |v.fat| && c !in cs' ==> v'.fat[c] == v.fat[c])
    && (forall c: nat :: c < |v.data| && c !in cs' ==> v'.data[c] == v.data[c])
  }

  lemma OwnPrefix(v: Vol, v': Vol, cs: seq<nat>, cs': seq<nat>)
    requires OnlyOwn(v, v', cs, cs')
    ensures cs <= cs'
  {
  }

  /** The bytes of the chain `cs` are those it had, with `x` written over them from `at` on. */
  ghost predicate SplicedIn(g: Geometry, v: Vol, v': Vol, cs: seq<nat>, at: nat, x: seq<byte>)
    requires g.Valid()
  {
    LengthPositive(g);
    var cl := g.ClusterLength();
    && Backed(v.data, cs, cl) && Backed(v'.data, cs, cl) && at + |x| <= |cs| * cl
    && Raw(v'.data, cs, cl) == Splice(Raw(v.data, cs, cl), at, x)
  }

  lemma GrewOnlyOwn(v: Vol, v': Vol, cs: seq<nat>, cs': seq<nat>)
    requires Grew(v, v', cs, cs')
    ensures OnlyOwn(v, v', cs, cs')
  {
  }

  lemma DataOnlyOwn(v: Vol, v1: Vol, v2: Vol, cs: seq<nat>, cs': seq<nat>)
    requires OnlyOwn(v, v1, cs, cs') && OnlyData(v1, v2, cs')
    ensures OnlyOwn(v, v2, cs, cs')
  {
  }

  lemma GrewWrote(g: Geometry, v: Vol, v1: Vol, v2: Vol, cs: seq<nat>, cs': seq<nat>, at: nat, x: seq<byte>)
    requires g.Valid() && Grew(v, v1, cs, cs') && WroteIn(g, v1, v2, cs', at, x)
    ensures SplicedIn(g, v, v2, cs', at, x)
  {
  }

  /** How many clusters a chain of `have` clusters lacks to reach position `end`. */
  function Shortfall(g: Geometry, have: nat, end: nat): nat
    requires g.Valid()
  {
    if end > have * g.ClusterLength() then ClustersFor(end - have * g.ClusterLength(), g) else 0
  }

  lemma PlacedGrown(g: Geometry, cs: seq<nat>, cs': seq<nat>, cursor: nat, current: nat, remaining: nat, current': nat,
                    remaining': nat)
    requires g.Valid() && PlacedAt(g, cs, cursor, current, remaining) && cs <= cs'
    requires if cs == [] && cs' != [] then current' == cs'[0] && remaining' == g.ClusterLength()
             else current' == current && remaining' == remaining
    ensures PlacedAt(g, cs', cursor, current', remaining')
  {
    LengthPositive(g);
    if cs != [] {
      AtExtended(cs, cs', g.ClusterLength(), cursor, current, remaining);
    } else if cs' != [] {
      AtInside(cs, g.ClusterLength(), cursor, current, remaining);
      AtStart(cs', g.ClusterLength(), current');
    }
  }

  /** With the shortfall made up the chain reaches `end`, and is as long as the new data length
      calls for. */
  lemma Reached(g: Geometry, have: nat, len: nat, end: nat)
    requires g.Valid() && have == ClustersFor(len, g)
    ensures var m := have + Shortfall(g, have, end);
            end <= m * g.ClusterLength() && m == ClustersFor(if len < end then end else len, g)
  {
    var cl := g.ClusterLength();
    LengthPositive(g);
    CeilBound(len, cl);
    CeilBound(end, cl);
    if end > have * cl {
      CeilBound(end - have * cl, cl);
      CeilAdd(have, end - have * cl, cl);
    } else if len < end {
      CeilMono(len, end, have, cl);
    }
  }

  lemma CeilBound(a: nat, cl: nat)
    requires 0 < cl
    ensures a <= DivCeil(a, cl) * cl
    ensures a > 0 ==> DivCeil(a, cl) > 0 && (DivCeil(a, cl) - 1) * cl < a
    ensures a == 0 ==> DivCeil(a, cl) == 0
  {
    DivModFacts(a, cl);
    assert (a / cl + 1) * cl == (a / cl) * cl + cl;
    if a == 0 { DivModUnique(0, cl, 0, 0); }
    if a > 0 && a / cl == 0 { assert a % cl == a; }
    assert (a / cl - 1) * cl == (a / cl) * cl - cl;
  }

  lemma CeilAdd(m: nat, k: nat, cl: nat)
    requires 0 < cl
    ensures DivCeil(m * cl + k, cl) == m + DivCeil(k, cl)
  {
    DivModFacts(k, cl);
    assert (m + k / cl) * cl == m * cl + (k / cl) * cl;
    DivModUnique(m * cl + k, cl, m + k / cl, k % cl);
  }

  lemma CeilMono(a: nat, b: nat, m: nat, cl: nat)
    requires 0 < cl && a <= b <= m * cl && DivCeil(a, cl) == m
    ensures DivCeil(b, cl) == m
  {
    CeilBound(a, cl);
    CeilBound(b, cl);
    var d := DivCeil(b, cl);
    if d > m {
      MulMono(m, d - 1, cl);
    } else if d < m {
      MulMono(d, m - 1, cl);
    }
  }

  lemma OnlyDataTrans(v: Vol, v1: Vol, v2: Vol, cs: seq<nat>)
    requires OnlyData(v, v1, cs) && OnlyData(v1, v2, cs)
    ensures OnlyData(v, v2, cs)
  {
  }

  lemma WroteInTrans(g: Geometry, v: Vol, v1: Vol, v2: Vol, cs: seq<nat>, at: nat, x: seq<byte>, y: seq<byte>)
    requires g.Valid() && WroteIn(g, v, v1, cs, at, x) && WroteIn(g, v1, v2, cs, at + |x|, y)
    ensures WroteIn(g, v, v2, cs, at, x + y)
  {
    LengthPositive(g);
    WroteTrans(v, v1, v2, cs, g.ClusterLength(), at, x, y);
  }

  lemma NextAligned(g: Geometry, cursor: nat)
    requires g.Valid() && InSectorOffset(g, cursor) == 0
    ensures InSectorOffset(g, cursor + g.size) == 0
  {
    SizePositive(g);
    DivModFacts(cursor, g.size);
    var q := cursor / g.size;
    assert (q + 1) * g.size == q * g.size + g.size;
    DivModUnique(cursor + g.size, g.size, q + 1, 0);
  }

  lemma IntoSector(g: Geometry, cursor: nat, n: nat)
    requires g.Valid() && InSectorOffset(g, cursor) + n < g.size
    ensures InSectorOffset(g, cursor + n) == InSectorOffset(g, cursor) + n
  {
    SizePositive(g);
    DivModFacts(cursor, g.size);
    DivModUnique(cursor + n, g.size, cursor / g.size, cursor % g.size + n);
  }

  lemma ToSectorEnd(g: Geometry, cursor: nat, n: nat)
    requires g.Valid() && InSectorOffset(g, cursor) + n == g.size
    ensures InSectorOffset(g, cursor + n) == 0
  {
    SizePositive(g);
    DivModFacts(cursor, g.size);
    var q := cursor / g.size;
    assert (q + 1) * g.size == q * g.size + g.size;
    DivModUnique(cursor + n, g.size, q + 1, 0);
  }

  /** The writes that go wrong: the last, partial sector starts on a cluster boundary, behind where
      the write began. */
  predicate BadTail(g: Geometry, cursor: nat, n: nat)
    requires g.Valid()
  {
    var tail := InSectorOffset(g, cursor + n);
    0 < tail < n && InClusterOffset(g, cursor + n - tail) == 0
  }

  /** Writing 513 bytes at the start of an empty file goes wrong when clusters are single sectors, although
      there is room: the last byte would be the first of a cluster. */
  lemma TailUnderflows(free: nat)
    requires free >= 2
    ensures SmallVolume().Valid() && BadTail(SmallVolume(), 0, 513)
    ensures WriteOutcome(SmallVolume(), true, 0, 0, 513, free) == Err(Underflow)
  {
    assert ClustersFor(513, SmallVolume()) == 2;
  }

  /** Writing two clusters' worth to an empty file when one cluster is free fails, and leaves the file with
      that cluster although its length calls for none. */
  lemma FullDiskKeeps()
    ensures var g := SmallVolume();
            && WriteOutcome(g, true, ClustersFor(0, g), 0, 1024, 1) == Err(DiskFull)
            && ClustersFor(0, g) + 1 != ClustersFor(0, g) == 0
  {
    assert ClustersFor(1024, SmallVolume()) == 2;
  }

  /** Where the first partial sector leaves off. */
  lemma AfterFirst(g: Geometry, cursor: nat, n: nat)
    requires g.Valid() && n > 0
    ensures var len := PartialLen(g, cursor, n);
            if len == n then !BadTail(g, cursor, n)
            else InSectorOffset(g, cursor + len) == 0 && (len == 0 ==> n >= g.size)
  {
    var start, len := InSectorOffset(g, cursor), PartialLen(g, cursor, n);
    if start + n < g.size {
      IntoSector(g, cursor, n);
    } else if start > 0 {
      ToSectorEnd(g, cursor, len);
    }
  }

  /** Where the full sectors leave off. */
  lemma AfterBlocks(g: Geometry, cursor: nat, n: nat, done: nat)
    requires g.Valid() && 0 < done <= n && n - done < g.size && InSectorOffset(g, cursor + done) == 0
    ensures BadTail(g, cursor, n) <==> done < n && InClusterOffset(g, cursor + done) == 0
    ensures PartialLen(g, cursor + done, n - done) == n - done
  {
    IntoSector(g, cursor + done, n - done);
  }

  /** `Wrote` for a volume's cluster length. */
  ghost predicate WroteIn(g: Geometry, v: Vol, v': Vol, cs: seq<nat>, at: nat, x: seq<byte>)
    requires g.Valid()
  {
    LengthPositive(g);
    Wrote(v, v', cs, g.ClusterLength(), at, x)
  }

  /** Nothing changed but bytes of the clusters `cs`. */
  ghost predicate OnlyData(v: Vol, v': Vol, cs: seq<nat>) {
    && v'.alloc == v.alloc && v'.fat == v.fat && |v'.data| == |v.data|
    && forall c: nat :: c < |v.data| && c !in cs ==> v'.data[c] == v.data[c]
  }

  lemma OnlyDataPatched(v: Vol, v': Vol, cs: seq<nat>, c: nat, o: nat, x: seq<byte>)
    requires Patched(v, v', c, o, x) && c in cs
    ensures OnlyData(v, v', cs)
  {
  }

  lemma RepDistinct(fat: seq<nat>, chain: StoredChain, noFat: bool, cs: seq<nat>)
    requires Rep(fat, chain, noFat, cs)
    ensures Distinct(cs)
  {
  }

  /** The rest of the sector fits in the rest of the cluster. */
  lemma SectorRoom(g: Geometry, cursor: nat)
    requires g.Valid()
    ensures 0 < g.size && g.size - InSectorOffset(g, cursor) <= g.ClusterLength() - InClusterOffset(g, cursor)
  {
    SectorOffset(g, cursor);
  }

  lemma PlacedFacts(g: Geometry, cs: seq<nat>, cursor: nat, current: nat, remaining: nat)
    requires g.Valid() && PlacedAt(g, cs, cursor, current, remaining) && cs != []
    ensures current in cs && cursor <= |cs| * g.ClusterLength()
    ensures remaining > 0 ==> remaining == g.ClusterLength() - InClusterOffset(g, cursor)
    ensures remaining == 0 ==> InClusterOffset(g, cursor) == 0
  {
    AtInside(cs, g.ClusterLength(), cursor, current, remaining);
  }

  lemma PlacedInside(g: Geometry, cs: seq<nat>, cursor: nat, current: nat, remaining: nat)
    requires g.Valid() && PlacedAt(g, cs, cursor, current, remaining) && remaining > 0
    ensures cs != [] && current in cs && remaining == g.ClusterLength() - InClusterOffset(g, cursor)
  {
    LengthPositive(g);
    AtInside(cs, g.ClusterLength(), cursor, current, remaining);
  }

  lemma WroteNothing(d: seq<Block>, g: Geometry, cs: seq<nat>, cursor: nat)
    requires g.Valid() && Good(d, g) && AllStore(g, cs)
    requires cursor <= |cs| * g.ClusterLength()
    ensures WroteIn(g, Abs(d, g), Abs(d, g), cs, cursor, [])
  {
    LengthPositive(g);
    StoresBacked(d, g, cs);
    WroteNone(Abs(d, g), cs, g.ClusterLength(), cursor);
  }

  /** Patching inside the current cluster and moving the cursor on is a write through the chain. */
  lemma Advanced(d: seq<Block>, g: Geometry, v': Vol, cs: seq<nat>, cursor: nat, current: nat, remaining: nat,
                 x: seq<byte>)
    requires g.Valid() && Good(d, g) && Distinct(cs) && AllStore(g, cs)
    requires PlacedAt(g, cs, cursor, current, remaining) && 0 < |x| <= remaining
    requires Patched(Abs(d, g), v', current, InClusterOffset(g, cursor), x)
    ensures WroteIn(g, Abs(d, g), v', cs, cursor, x)
    ensures PlacedAt(g, cs, cursor + |x|, current, remaining - |x|)
    ensures remaining - |x| == 0 <==> InClusterOffset(g, cursor + |x|) == 0
  {
    var cl := g.ClusterLength();
    AtInside(cs, cl, cursor, current, remaining);
    Moved(cs, cl, cursor, current, remaining, |x|);
    StoresBacked(d, g, cs);
    WroteChunk(Abs(d, g), v', cs, cl, cursor, current, remaining, x);
  }

  /** Bytes from `o` on of cluster `c` were overwritten, and nothing else changed. */
  ghost predicate Patched(v: Vol, v': Vol, c: nat, o: nat, x: seq<byte>) {
    && c < |v.data| && o + |x| <= |v.data[c]|
    && v' == v.(data := v.data[c := Splice(v.data[c], o, x)])
  }

  lemma PatchedKeeps(v: Vol, v': Vol, c: nat, o: nat, x: seq<byte>)
    requires Patched(v, v', c, o, x)
    ensures v'.fat == v.fat && v'.alloc == v.alloc
  {
  }

  /** `get_current_sector_id`. */
  function SectorOfCursor(g: Geometry, c: nat, cursor: nat): (s: nat)
    requires g.Valid() && g.Stores(c)
    ensures s < g.deviceSectors && g.KindOf(s) == Kind.Data
  {
    DataSectorOf(g, c, InClusterOffset(g, cursor))
  }

  lemma SectorPatched(d: seq<Block>, g: Geometry, c: nat, cursor: nat, x: seq<byte>)
    requires g.Valid() && Good(d, g) && g.Stores(c) && |x| <= g.size - InSectorOffset(g, cursor)
    ensures var s := SectorOfCursor(g, c, cursor);
            && |d[s]| == g.size
            && var d' := d[s := Splice(d[s], InSectorOffset(g, cursor), x)];
            Good(d', g) && Patched(Abs(d, g), Abs(d', g), c, InClusterOffset(g, cursor), x)
  {
    SectorOffset(g, cursor);
    StoreData(d, g, c, InClusterOffset(g, cursor), x);
  }

  /** What comes after the `q - 1`-th cluster, told from the shape. */
  lemma NextInChain(fat: seq<nat>, chain: StoredChain, noFat: bool, cs: seq<nat>, q: nat)
    requires Rep(fat, chain, noFat, cs) && |fat| <= MAX_CLUSTER_ID + 1
    requires if cs == [] then q == 0 else 1 <= q <= |cs|
    ensures chain.Empty? <==> cs == []
    ensures chain.Contiguous? ==>
              (q < |cs| ==> cs[q] == cs[q - 1] + 1)
                  && (q < |cs| <==> chain.first <= cs[q - 1] + 1 < chain.first + chain.count)
    ensures chain.Fat? ==>
              FIRST_CLUSTER_ID <= cs[q - 1] < |fat| && NextOf(fat[cs[q - 1]]) == if q < |cs| then Some(cs[q]) else None
  {
    if chain.Fat? {
      assert fat[cs[q - 1]] == After(cs, q - 1, END_OF_CHAIN);
    }
  }

  lemma GrewNone(v: Vol, cs: seq<nat>)
    ensures Grew(v, v, cs, cs)
  {
  }

  lemma GrewFirst(v: Vol, v': Vol, cs: seq<nat>, cs': seq<nat>)
    requires Grew(v, v', cs, cs')
    ensures cs <= cs' && (cs != [] ==> cs'[0] == cs[0])
  {
  }

  lemma NextIsValid(fat: seq<nat>, chain: StoredChain, noFat: bool, cs: seq<nat>)
    requires Rep(fat, chain, noFat, cs)
    ensures SearchFrom(chain).Some? ==> FIRST_CLUSTER_ID <= SearchFrom(chain).value
    ensures chain.Empty? <==> cs == []
  {
    if chain.Contiguous? { assert cs[0] == chain.first; }
  }

  lemma FreeBounds(alloc: set<nat>, end: nat, run: Run)
    requires Free(alloc, FIRST_CLUSTER_ID, end, run.first, run.count)
    ensures 0 < run.count && FIRST_CLUSTER_ID <= run.first && run.first + run.count <= end
  {
  }

  lemma NeedPositive(bytes: nat, g: Geometry)
    requires bytes > 0 && g.Valid()
    ensures ClustersFor(bytes, g) > 0
  {
    DivModFacts(bytes, g.ClusterLength());
  }
}
