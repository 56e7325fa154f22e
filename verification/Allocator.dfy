/** The cluster allocator over the allocation bitmap (src/allocation.rs). */
module Allocator {
  import opened Bytes
  import opened Chains
  import opened Disk
  import opened FreeSearch
  import opened Results
  import opened Spots
  import opened Touched
  import opened Volume

  predicate InRun(r: Run, c: nat) { r.first <= c < r.first + r.count }

  ghost function Clusters(r: Run): (s: set<nat>) {
    set c: nat | c < r.first + r.count && InRun(r, c)
  }

  function Max(a: nat, b: nat): nat { if a < b then b else a }

  // ---- bits ------------------------------------------------------------------

  /** `set_bit_range`: sets or clears bits `lo..hi` of a sector and no others. */
  method SetBitRange(block: Block, lo: nat, hi: nat, on: bool) returns (r: Block)
    requires lo <= hi <= 8 * |block|
    ensures |r| == |block|
    ensures forall b: nat :: b < 8 * |block| ==> SectorBit(r, b) == if lo <= b < hi then on else SectorBit(block, b)
  {
    r := block;
    for bit := lo to hi
      invariant |r| == |block|
      invariant forall b: nat :: b < 8 * |block| ==>
                  SectorBit(r, b) == if lo <= b < bit then on else SectorBit(block, b)
    {
      ghost var before := r;
      r := r[bit / 8 := WithBit8(r[bit / 8], bit % 8, on)];
      forall b: nat | b < 8 * |block|
        ensures SectorBit(r, b) == if b == bit then on else SectorBit(before, b)
      {
        if b / 8 == bit / 8 && b != bit {
          assert b % 8 != bit % 8;
        }
      }
    }
  }

  /** Where bit `b` of bitmap sector `k` lies. */
  lemma BitPlace(g: Geometry, k: nat, b: nat, c: nat)
    requires g.Valid() && b < g.BitsPerSector() && c == FIRST_CLUSTER_ID + k * g.BitsPerSector() + b
    ensures FIRST_CLUSTER_ID <= c
    ensures c < g.BitEnd() ==> BitSectorOf(g, c) == g.BitmapFirst() + k
    ensures BitInSector(g, c) == b
  {
    MulMono(0, k, g.BitsPerSector());
    DivModUnique(c - FIRST_CLUSTER_ID, g.BitsPerSector(), k, b);
  }

  // ---- scanning four bytes of the bitmap -----------------------------------------

  datatype ChunkScan = Found(run: Run) | Padding(state: ScanState) | Go(state: ScanState)

  /** A scan that stands at cluster `c` with outcome `r` is on the way to the result `want`. */
  ghost predicate Agrees(want: Option<Run>, r: ChunkScan, alloc: set<nat>, c: nat, from: nat, end: nat, n: nat,
                         policy: Policy) {
    match r
    case Found(run) => want == Some(run)
    case Padding(st) => want == Finish(policy, st)
    case Go(st) => want == Scan(alloc, Max(c, from), end, n, policy, st) && (c <= from ==> st == START)
  }

  /** The bits of `chunk` are those of the 32 clusters from `c` on. */
  ghost predicate ChunkOf(chunk: seq<byte>, c: nat, end: nat, alloc: set<nat>) {
    |chunk| == 4 && forall j: nat :: j < 32 && c + j < end ==> (c + j in alloc <==> BitOf(chunk[j / 8], j % 8))
  }

  /** Scans 32 clusters, skipping them all at once when their word is 0xFFFFFFFF; agrees with
      looking at them one by one. */
  method ScanChunk(chunk: seq<byte>, cluster: nat, from: nat, end: nat, n: nat, policy: Policy, st: ScanState,
                   ghost alloc: set<nat>)
    returns (r: ChunkScan)
    requires ChunkOf(chunk, cluster, end, alloc) && from < end
    requires cluster <= from ==> st == START
    ensures Agrees(Scan(alloc, Max(cluster, from), end, n, policy, st), r, alloc, cluster + 32, from, end, n, policy)
  {
    if FromLE32(chunk) == TWO32 - 1 {
      FullChunk(chunk, cluster, end, alloc);
      SkipChunk(alloc, cluster, from, end, n, policy, st);
      var closed := CloseRun(policy, st);
      return if closed.stop.Some? then Found(closed.stop.value) else Go(closed.state);
    }
    r := ScanBits(chunk, cluster, from, end, n, policy, st, alloc);
  }

  lemma FullChunk(chunk: seq<byte>, c: nat, end: nat, alloc: set<nat>)
    requires ChunkOf(chunk, c, end, alloc) && FromLE32(chunk) == TWO32 - 1
    ensures forall x: nat :: c <= x < c + 32 && x < end ==> x in alloc
  {
    assert chunk[0] == 255 && chunk[1] == 255 && chunk[2] == 255 && chunk[3] == 255;
    forall x: nat | c <= x < c + 32 && x < end ensures x in alloc {
      var j := x - c;
      FullByte(j % 8);
      assert c + j in alloc <==> BitOf(chunk[j / 8], j % 8);
    }
  }

  lemma SkipChunk(alloc: set<nat>, cluster: nat, from: nat, end: nat, n: nat, policy: Policy, st: ScanState)
    requires from < end
    requires cluster <= from ==> st == START
    requires forall x: nat :: cluster <= x < cluster + 32 && x < end ==> x in alloc
    ensures var closed := CloseRun(policy, st);
            Scan(alloc, Max(cluster, from), end, n, policy, st) ==
              (if closed.stop.Some? then closed.stop else Scan(alloc, Max(cluster + 32, from), end, n, policy, closed.state))
    ensures cluster + 32 <= from ==> CloseRun(policy, st).state == START
  {
    var c, c' := Max(cluster, from), Max(cluster + 32, from);
    if c < end && c < c' {
      SkipFull(alloc, c, c', end, n, policy, st);
    }
  }

  method ScanBits(chunk: seq<byte>, cluster: nat, from: nat, end: nat, n: nat, policy: Policy, st: ScanState,
                  ghost alloc: set<nat>)
    returns (r: ChunkScan)
    requires ChunkOf(chunk, cluster, end, alloc) && from < end
    requires cluster <= from ==> st == START
    ensures Agrees(Scan(alloc, Max(cluster, from), end, n, policy, st), r, alloc, cluster + 32, from, end, n, policy)
  {
    var cur, c := st, cluster;
    ghost var want := Scan(alloc, Max(cluster, from), end, n, policy, st);
    for j := 0 to 32
      invariant c == cluster + j
      invariant want == Scan(alloc, Max(c, from), end, n, policy, cur)
      invariant c <= from ==> cur == START
    {
      if c >= from {
        if c >= end {
          return Padding(cur);
        }
        if BitOf(chunk[j / 8], j % 8) {
          var closed := CloseRun(policy, cur);
          if closed.stop.Some? {
            return Found(closed.stop.value);
          }
          cur := closed.state;
        } else {
          cur := Extend(cur, c);
          if cur.count == n {
            return Found(Run(cur.first.value, n));
          }
        }
      }
      c := c + 1;
    }
    r := Go(cur);
  }

  // ---- scanning a sector ----------------------------------------------------------

  /** The bits of `block` are those of the clusters from `base` on. */
  ghost predicate SectorShows(block: Block, base: nat, end: nat, alloc: set<nat>) {
    forall b: nat :: b < 8 * |block| && base + b < end ==> (base + b in alloc <==> SectorBit(block, b))
  }

  method ScanSector(block: Block, base: nat, from: nat, end: nat, n: nat, policy: Policy, st: ScanState,
                    ghost alloc: set<nat>)
    returns (r: ChunkScan)
    requires |block| % 4 == 0 && SectorShows(block, base, end, alloc) && from < end
    requires base <= from ==> st == START
    ensures Agrees(Scan(alloc, Max(base, from), end, n, policy, st), r, alloc, base + 8 * |block|, from, end, n, policy)
  {
    r := Go(st);
    ghost var want := Scan(alloc, Max(base, from), end, n, policy, st);
    var k := 0;
    while k < |block| / 4 && r.Go?
      invariant k <= |block| / 4
      invariant Agrees(want, r, alloc, base + 32 * k, from, end, n, policy)
      decreases |block| / 4 - k
    {
      SectorChunk(block, base, end, alloc, k);
      r := ScanChunk(block[4 * k..4 * k + 4], base + 32 * k, from, end, n, policy, r.state, alloc);
      k := k + 1;
    }
  }

  lemma SectorChunk(block: Block, base: nat, end: nat, alloc: set<nat>, k: nat)
    requires SectorShows(block, base, end, alloc) && 4 * k + 4 <= |block|
    ensures ChunkOf(block[4 * k..4 * k + 4], base + 32 * k, end, alloc)
  {
    var chunk := block[4 * k..4 * k + 4];
    forall j: nat | j < 32 && base + 32 * k + j < end
      ensures base + 32 * k + j in alloc <==> BitOf(chunk[j / 8], j % 8)
    {
      var b := 32 * k + j;
      assert base + b in alloc <==> SectorBit(block, b);
      assert b / 8 == 4 * k + j / 8 && b % 8 == j % 8;
    }
  }

  lemma BitmapSectorShows(d: seq<Block>, g: Geometry, k: nat, base: nat)
    requires g.Valid() && Good(d, g) && k < g.bitmapSectors && base == FIRST_CLUSTER_ID + k * g.BitsPerSector()
    ensures SectorShows(d[g.BitmapFirst() + k], base, g.BitEnd(), AllocSet(d, g))
  {
    var block := d[g.BitmapFirst() + k];
    forall b: nat | b < 8 * |block| && base + b < g.BitEnd()
      ensures base + b in AllocSet(d, g) <==> SectorBit(block, b)
    {
      BitPlace(g, k, b, base + b);
    }
  }

  lemma StartsPastEnd(g: Geometry, from: nat)
    requires g.Valid() && FIRST_CLUSTER_ID <= from
    ensures from >= g.EndCluster() || (from - FIRST_CLUSTER_ID) / g.BitsPerSector() >= g.bitmapSectors <==>
            from >= g.BitEnd()
  {
    var i, bits := from - FIRST_CLUSTER_ID, g.BitsPerSector();
    DivModFacts(i, bits);
    if i / bits >= g.bitmapSectors {
      MulMono(g.bitmapSectors, i / bits, bits);
    } else {
      MulMono(i / bits + 1, g.bitmapSectors, bits);
      assert (i / bits + 1) * bits == (i / bits) * bits + bits;
    }
  }

  // ---- the allocator --------------------------------------------------------------

  class Allocator {
    const vol: Volume
    var nextSearch: nat

    ghost predicate Valid()
      reads this, vol, vol.Footprint()
    {
      vol.Valid() && FIRST_CLUSTER_ID <= nextSearch
    }

    ghost function Alloc(): set<nat>
      requires vol.g.Valid() && Good(vol.flat, vol.g)
      reads vol
    {
      vol.View().alloc
    }

    constructor (vol: Volume)
      requires vol.Valid()
      ensures Valid() && this.vol == vol
    {
      this.vol := vol;
      nextSearch := FIRST_CLUSTER_ID;
    }

    /** Scans one sector of the bitmap, whose first bit is that of cluster `c`. */
    method ScanSectorAt(sector: nat, c: nat, from: nat, n: nat, policy: Policy, st: ScanState) returns (r: ChunkScan)
      requires Valid() && sector < vol.g.bitmapSectors && from < vol.g.BitEnd()
      requires c == FIRST_CLUSTER_ID + sector * vol.g.BitsPerSector()
      requires c <= from ==> st == START
      modifies vol.Footprint() - {vol}
      ensures Valid() && vol.Unsaved() <= old(vol.Unsaved())
      ensures Agrees(Scan(Alloc(), Max(c, from), vol.g.BitEnd(), n, policy, st), r, Alloc(),
                     c + vol.g.BitsPerSector(), from, vol.g.BitEnd(), n, policy)
    {
      hide Volume.Coherent, Geometry.KindOf, Agrees, Scan;
      BitmapSectorInRange(vol.g, sector);
      var block := vol.Read(Kind.Bitmap, vol.g.BitmapFirst() + sector);
      BitmapSectorShows(vol.flat, vol.g, sector, c);
      SizeFacts(vol.g);
      assert Alloc() == AllocSet(vol.flat, vol.g);
      r := ScanSector(block, c, from, vol.g.BitEnd(), n, policy, st, Alloc());
    }

    /** Scans the bitmap sectors from `first` on. */
    method ScanSectors(first: nat, from: nat, n: nat, policy: Policy) returns (r: ChunkScan)
      requires Valid() && first < vol.g.bitmapSectors && from < vol.g.BitEnd()
      requires FIRST_CLUSTER_ID + first * vol.g.BitsPerSector() <= from
      modifies vol.Footprint() - {vol}
      ensures Valid() && vol.Unsaved() <= old(vol.Unsaved())
      ensures Agrees(Scan(Alloc(), from, vol.g.BitEnd(), n, policy, START), r, Alloc(), vol.g.BitEnd(), from,
              vol.g.BitEnd(), n, policy)
    {
      hide Volume.Coherent, Geometry.KindOf, Geometry.Valid, Scan;
      var sector: nat, c: nat := first, FIRST_CLUSTER_ID + first * vol.g.BitsPerSector();
      r := Go(START);
      while sector < vol.g.bitmapSectors && r.Go?
        invariant Valid() && vol.Unsaved() <= old(vol.Unsaved())
        invariant first <= sector <= vol.g.bitmapSectors
        invariant c == FIRST_CLUSTER_ID + sector * vol.g.BitsPerSector()
        invariant Agrees(Scan(Alloc(), from, vol.g.BitEnd(), n, policy, START), r, Alloc(), c, from, vol.g.BitEnd(),
                  n, policy)
        decreases vol.g.bitmapSectors - sector
      {
        MulStep(sector, vol.g.BitsPerSector());
        r := ScanSectorAt(sector, c, from, n, policy, r.state);
        sector := sector + 1;
        c := c + vol.g.BitsPerSector();
      }
      if r.Go? { ScanPastEnd(Alloc(), c, vol.g.BitEnd(), from, n, policy, r.state); }
    }

    /** The scan from one cluster to the end of the heap, sector by sector and 32 clusters at a
        time, gives what looking at every bit would give. */
    method FindFreeFrom(from: nat, n: nat, policy: Policy) returns (r: Result<Run>)
      requires Valid()
      modifies vol.Footprint() - {vol}
      ensures Valid() && vol.Unsaved() <= old(vol.Unsaved())
      ensures r == if from < FIRST_CLUSTER_ID then Err(InvalidClusterId(from))
                   else match Scan(Alloc(), from, vol.g.BitEnd(), n, policy, START)
                        case None => Err(DiskFull)
                        case Some(run) => Ok(run)
    {
      hide Volume.Coherent, Geometry.KindOf;
      if from < FIRST_CLUSTER_ID {
        return Err(InvalidClusterId(from));
      }
      var bits := vol.g.BitsPerSector();
      var first := (from - FIRST_CLUSTER_ID) / bits;
      StartsPastEnd(vol.g, from);
      if from >= vol.g.EndCluster() || first >= vol.g.bitmapSectors {
        return Err(DiskFull);
      }
      DivModFacts(from - FIRST_CLUSTER_ID, bits);
      var c := ScanSectors(first, from, n, policy);
      var f := if c.Found? then Some(c.run) else Finish(policy, c.state);
      r := if f.Some? then Ok(f.value) else Err(DiskFull);
    }

    /** Search with wrap-around; the next search starts behind what was found. */
    method FindFree(from: Option<nat>, n: nat, policy: Policy) returns (r: Result<Run>)
      requires Valid() && n > 0
      requires from.Some? ==> FIRST_CLUSTER_ID <= from.value
      modifies this, vol.Footprint() - {vol}
      ensures Valid() && vol.Unsaved() <= old(vol.Unsaved())
      ensures var start := if from.Some? then from.value else old(nextSearch);
              match Find(Alloc(), start, FIRST_CLUSTER_ID, vol.g.BitEnd(), n, policy)
              case None => r == Err(DiskFull) && nextSearch == old(nextSearch)
              case Some(run) => r == Ok(run) && nextSearch == run.first + run.count
    {
      hide Volume.Coherent, Geometry.KindOf, Geometry.Valid, Scan, Geometry.BitEnd;
      var start := if from.Some? then from.value else nextSearch;
      r := FindFreeFrom(start, n, policy);
      if r == Err(DiskFull) && start > FIRST_CLUSTER_ID {
        r := FindFreeFrom(FIRST_CLUSTER_ID, n, policy);
      }
      if r.Ok? {
        BitEndFacts(vol.g);
        FindFails(Alloc(), start, FIRST_CLUSTER_ID, vol.g.BitEnd(), n, policy);
        nextSearch := r.value.first + r.value.count;
      }
    }

    /** Sets or clears `n` bits of one sector of the bitmap. */
    method SetBits(sector: nat, lo: nat, n: nat, ghost c: nat, on: bool)
      requires Valid() && sector < vol.g.bitmapSectors && lo + n <= vol.g.BitsPerSector()
      requires c == FIRST_CLUSTER_ID + sector * vol.g.BitsPerSector() + lo && c + n <= vol.g.BitEnd()
      modifies vol.Footprint()
      ensures Valid() && vol.View() == old(vol.View()).(alloc := Marked(old(Alloc()), Run(c, n), on))
      ensures vol.Unsaved() <= old(vol.Unsaved()) + Span(vol.g.BitmapFirst() + sector, lo, n)
    {
      hide Volume.Coherent, Volume.Unsaved, Geometry.KindOf, Geometry.Valid, SectorBit, NewSpots, AllocSet, Marked,
           FatTable, DataTable, Geometry.BitEnd;
      BitmapSectorInRange(vol.g, sector);
      var s := vol.g.BitmapFirst() + sector;
      var i := vol.ReadMut(Kind.Bitmap, s);
      var block := SetBitRange(vol.bitmap.slots[i].block, lo, lo + n, on);
      MarkedChunk(vol.flat, vol.g, sector, lo, n, c, on, block);
      BitsSpots(vol.g, s, vol.flat[s], block, lo, n);
      vol.Store(Kind.Bitmap, i, s, block);
    }

    /** Marks `n` clusters that lie in one sector of the bitmap. */
    method MarkChunk(touched: FileDirty, sector: nat, lo: nat, n: nat, ghost c: nat, on: bool)
      requires Valid() && touched.Valid(vol.g)
      requires sector < vol.g.bitmapSectors && lo + n <= vol.g.BitsPerSector()
      requires c == FIRST_CLUSTER_ID + sector * vol.g.BitsPerSector() + lo && c + n <= vol.g.BitEnd()
      modifies vol.Footprint(), touched
      ensures Valid() && touched.Valid(vol.g) && touched.isDirEntryDirty == old(touched.isDirEntryDirty)
      ensures vol.View() == old(vol.View()).(alloc := Marked(old(Alloc()), Run(c, n), on))
      ensures old(touched.inserted) <= touched.inserted
      ensures Adds(vol.g, RunSeq(c, n), old(touched.inserted), touched.inserted)
      ensures vol.Unsaved() <= old(vol.Unsaved()) + touched.inserted
    {
      hide Volume.Coherent, Volume.Unsaved, Volume.View, Geometry.KindOf, Geometry.Valid, Adds, FileDirty.Valid,
           RunSeq, Marked, Geometry.BitEnd, Good;
      BitmapSectorInRange(vol.g, sector);
      BitEndFacts(vol.g);
      RunHas(c, n);
      BitSpotsOwn(vol.g, RunSeq(c, n), sector, lo, n, c, touched.inserted);
      SetBits(sector, lo, n, c, on);
      touched.Insert(BitmapSector, vol.g.BitmapFirst() + sector, Span(vol.g.BitmapFirst() + sector, lo, n), vol.g);
    }

    /** Marks a run allocated or free, splitting it at bitmap sector boundaries. A run that does
        not fit the heap and the bitmap is refused untouched. */
    method MarkAllocated(touched: FileDirty, run: Run, on: bool) returns (r: Result<()>)
      requires Valid() && touched.Valid(vol.g)
      modifies vol.Footprint(), touched
      ensures Valid() && touched.Valid(vol.g) && touched.isDirEntryDirty == old(touched.isDirEntryDirty)
      ensures r == if run.count == 0 || (FIRST_CLUSTER_ID <= run.first && run.first + run.count <= vol.g.BitEnd())
                   then Ok(()) else Err(InvalidClusterId(run.first))
      ensures vol.View() == if r.Ok? then old(vol.View()).(alloc := Marked(old(Alloc()), run, on)) else old(vol.View())
      ensures old(touched.inserted) <= touched.inserted
      ensures Adds(vol.g, RunSeq(run.first, run.count), old(touched.inserted), touched.inserted)
      ensures vol.Unsaved() <= old(vol.Unsaved()) + touched.inserted
    {
      hide Volume.Coherent, Geometry.KindOf, Geometry.Valid, Geometry.BitEnd;
      if run.count == 0 {
        assert Marked(Alloc(), run, on) == Alloc();
        return Ok(());
      }
      if run.first < FIRST_CLUSTER_ID {
        return Err(InvalidClusterId(run.first));
      }
      var last := run.first + run.count - 1;
      SizePositive(vol.g);
      StartsPastEnd(vol.g, last);
      if last >= TWO32 || last >= vol.g.EndCluster()
        || (last - FIRST_CLUSTER_ID) / vol.g.BitsPerSector() >= vol.g.bitmapSectors {
        BitEndFacts(vol.g);
        return Err(InvalidClusterId(run.first));
      }
      MarkRun(touched, run, on);
      r := Ok(());
    }

    method MarkRun(touched: FileDirty, run: Run, on: bool)
      requires Valid() && touched.Valid(vol.g)
      requires FIRST_CLUSTER_ID <= run.first && run.first + run.count <= vol.g.BitEnd()
      modifies vol.Footprint(), touched
      ensures Valid() && touched.Valid(vol.g) && touched.isDirEntryDirty == old(touched.isDirEntryDirty)
      ensures vol.View() == old(vol.View()).(alloc := Marked(old(Alloc()), run, on))
      ensures old(touched.inserted) <= touched.inserted
      ensures Adds(vol.g, RunSeq(run.first, run.count), old(touched.inserted), touched.inserted)
      ensures vol.Unsaved() <= old(vol.Unsaved()) + touched.inserted
    {
      hide Volume.Coherent, Volume.Unsaved, Volume.View, Geometry.KindOf, Geometry.Valid, Geometry.BitEnd, Adds,
           Marked, FileDirty.Valid, RunSeq, Good;
      var c: nat, remaining: nat := run.first, run.count;
      SizePositive(vol.g);
      MarkedNone(Alloc(), run.first, on);
      AddsNone(vol.g, RunSeq(run.first, run.count), touched.inserted);
      while remaining > 0
        invariant Valid() && touched.Valid(vol.g) && touched.isDirEntryDirty == old(touched.isDirEntryDirty)
        invariant c + remaining == run.first + run.count && run.first <= c
        invariant vol.View() == old(vol.View()).(alloc := Marked(old(Alloc()), Run(run.first, c - run.first), on))
        invariant old(touched.inserted) <= touched.inserted
        invariant Adds(vol.g, RunSeq(run.first, run.count), old(touched.inserted), touched.inserted)
        invariant vol.Unsaved() <= old(vol.Unsaved()) + touched.inserted
      {
        ghost var was := touched.inserted;
        var sector, bit, taken := NextChunk(vol.g, c, remaining);
        MarkChunk(touched, sector, bit, taken, c, on);
        RunPart(run, c, taken);
        AddsTrans(vol.g, RunSeq(run.first, run.count), RunSeq(c, taken), RunSeq(run.first, run.count),
            old(touched.inserted), was,
                  touched.inserted);
        MarkedTwice(old(Alloc()), run.first, c - run.first, taken, on);
        c := c + taken;
        remaining := remaining - taken;
      }
    }

    /** Finds and marks a run for a chain that ends just before `after`. */
    method Allocate(touched: FileDirty, after: Option<nat>, n: nat, policy: Policy) returns (r: Result<Run>)
      requires Valid() && touched.Valid(vol.g) && n > 0
      requires after.Some? ==> FIRST_CLUSTER_ID <= after.value
      modifies this, vol.Footprint(), touched
      ensures Valid() && touched.Valid(vol.g) && touched.isDirEntryDirty == old(touched.isDirEntryDirty)
      ensures old(touched.inserted) <= touched.inserted
      ensures vol.Unsaved() <= old(vol.Unsaved()) + touched.inserted
      ensures match Find(old(Alloc()), if after.Some? then after.value else old(nextSearch), FIRST_CLUSTER_ID,
                         vol.g.BitEnd(), n, policy)
              case None => r == Err(DiskFull) && vol.View() == old(vol.View())
              case Some(run) => r == Ok(run) && vol.View() == old(vol.View()).(alloc := old(Alloc()) + Clusters(run))
      ensures Adds(vol.g, if r.Ok? then RunSeq(r.value.first, r.value.count) else [],
                   old(touched.inserted), touched.inserted)
      ensures r.Err? <==> NoneFree(old(Alloc()), FIRST_CLUSTER_ID, vol.g.BitEnd())
      ensures r.Ok? ==>
                Free(old(Alloc()), FIRST_CLUSTER_ID, vol.g.BitEnd(), r.value.first, r.value.count) && r.value.count <= n
    {
      hide Volume.Coherent, Geometry.KindOf, Geometry.Valid, Geometry.BitEnd, Scan, Find;
      BitEndFacts(vol.g);
      FindFails(Alloc(), if after.Some? then after.value else nextSearch, FIRST_CLUSTER_ID, vol.g.BitEnd(), n, policy);
      r := FindFree(after, n, policy);
      if r.Ok? {
        var m := MarkAllocated(touched, r.value, true);
      }
    }
  }

  /** `BitmapRunChunks::next`: the part of the run from `c` on that lies in `c`'s bitmap sector. */
  method NextChunk(g: Geometry, c: nat, remaining: nat) returns (sector: nat, bit: nat, taken: nat)
    requires g.Valid() && FIRST_CLUSTER_ID <= c && 0 < remaining && c + remaining <= g.BitEnd()
    ensures sector < g.bitmapSectors && 0 < taken <= remaining && bit + taken <= g.BitsPerSector()
    ensures c == FIRST_CLUSTER_ID + sector * g.BitsPerSector() + bit
    ensures taken == remaining || bit + taken == g.BitsPerSector()
  {
    DivModFacts(c - FIRST_CLUSTER_ID, g.BitsPerSector());
    BitSectorInRange(g, c);
    sector := (c - FIRST_CLUSTER_ID) / g.BitsPerSector();
    bit := (c - FIRST_CLUSTER_ID) % g.BitsPerSector();
    taken := if g.BitsPerSector() - bit < remaining then g.BitsPerSector() - bit else remaining;
  }

  lemma RunHas(c: nat, n: nat)
    ensures forall k: nat :: c <= k < c + n ==> k in RunSeq(c, n)
  {
    forall k: nat | c <= k < c + n ensures k in RunSeq(c, n) {
      assert RunSeq(c, n)[k - c] == k;
    }
  }

  lemma RunPart(run: Run, c: nat, n: nat)
    requires run.first <= c && c + n <= run.first + run.count
    ensures forall k :: k in RunSeq(c, n) ==> k in RunSeq(run.first, run.count)
  {
    forall k | k in RunSeq(c, n) ensures k in RunSeq(run.first, run.count) {
      assert RunSeq(run.first, run.count)[k - run.first] == k;
    }
  }

  lemma MarkedTwice(a: set<nat>, first: nat, k: nat, n: nat, on: bool)
    ensures Marked(Marked(a, Run(first, k), on), Run(first + k, n), on) == Marked(a, Run(first, k + n), on)
  {
    assert Clusters(Run(first, k + n)) == Clusters(Run(first, k)) + Clusters(Run(first + k, n));
  }

  lemma MarkedNone(a: set<nat>, first: nat, on: bool)
    ensures Marked(a, Run(first, 0), on) == a
  {
  }

  /** Freeing a run that was free before it was allocated restores the bitmap; and allocating it
      raises the number of allocated clusters by its length. */
  lemma MarkInverse(a: set<nat>, r: Run)
    requires a !! Clusters(r)
    ensures Marked(Marked(a, r, true), r, false) == a
    ensures |Marked(a, r, true)| == |a| + r.count
  {
    RunSize(r);
  }

  lemma {:induction false} RunSize(r: Run)
    ensures |Clusters(r)| == r.count
    decreases r.count
  {
    if r.count > 0 {
      var s := Run(r.first, r.count - 1);
      RunSize(s);
      assert Clusters(r) == Clusters(s) + {r.first + s.count};
    } else {
      assert Clusters(r) == {};
    }
  }

  lemma SizePositive(g: Geometry)
    requires g.Valid()
    ensures 0 < g.size && 0 < g.BitsPerSector()
  {
  }

  lemma BitEndFacts(g: Geometry)
    requires g.Valid()
    ensures FIRST_CLUSTER_ID <= g.BitEnd() <= g.EndCluster() <= MAX_CLUSTER_ID + 1
  {
    hide Geometry.BitEnd;
    BitEndBound(g);
  }

  lemma BitEndBound(g: Geometry)
    ensures FIRST_CLUSTER_ID <= g.BitEnd() <= g.EndCluster()
  {
    var bits := g.bitmapSectors * g.BitsPerSector();
    assert 0 <= bits;
  }

  /** Setting bits `lo..lo + n` of bitmap sector `k` marks the `n` clusters from `c` on, and
      clearing them frees those clusters; nothing else changes. */
  lemma MarkedChunk(d: seq<Block>, g: Geometry, k: nat, lo: nat, n: nat, c: nat, on: bool, b: Block)
    requires g.Valid() && Good(d, g) && k < g.bitmapSectors && |b| == g.size
    requires lo + n <= g.BitsPerSector() && c == FIRST_CLUSTER_ID + k * g.BitsPerSector() + lo && c + n <= g.BitEnd()
    requires forall x: nat :: x < g.BitsPerSector() ==>
               SectorBit(b, x) == if lo <= x < lo + n then on else SectorBit(d[g.BitmapFirst() + k], x)
    ensures var d' := d[g.BitmapFirst() + k := b];
            Good(d', g) && Abs(d', g) == Abs(d, g).(alloc := Marked(AllocSet(d, g), Run(c, n), on))
  {
    hide Geometry.Valid, Geometry.KindOf, Geometry.BitEnd, BitSectorOf, BitInSector, SectorBit;
    BitmapSectorInRange(g, k);
    var d' := d[g.BitmapFirst() + k := b];
    StoreBitmap(d, g, k, b);
    forall x: nat | FIRST_CLUSTER_ID <= x < g.BitEnd()
      ensures Allocated(d', g, x) == if InRun(Run(c, n), x) then on else Allocated(d, g, x)
    {
      MarkedBit(d, g, k, lo, n, c, on, b, x);
    }
    AllocSetIs(d', g, Marked(AllocSet(d, g), Run(c, n), on));
  }

  lemma AllocSetIs(d: seq<Block>, g: Geometry, a: set<nat>)
    requires g.Valid() && Good(d, g)
    requires forall x: nat :: FIRST_CLUSTER_ID <= x < g.BitEnd() ==> (Allocated(d, g, x) <==> x in a)
    requires forall x: nat :: x in a ==> FIRST_CLUSTER_ID <= x < g.BitEnd()
    ensures AllocSet(d, g) == a
  {
  }

  lemma MarkedBit(d: seq<Block>, g: Geometry, k: nat, lo: nat, n: nat, c: nat, on: bool, b: Block, x: nat)
    requires g.Valid() && Good(d, g) && k < g.bitmapSectors && |b| == g.size
    requires lo + n <= g.BitsPerSector() && c == FIRST_CLUSTER_ID + k * g.BitsPerSector() + lo && c + n <= g.BitEnd()
    requires forall y: nat :: y < g.BitsPerSector() ==>
               SectorBit(b, y) == if lo <= y < lo + n then on else SectorBit(d[g.BitmapFirst() + k], y)
    requires FIRST_CLUSTER_ID <= x < g.BitEnd()
    ensures (if BitSectorOf(g, x) == g.BitmapFirst() + k then SectorBit(b, BitInSector(g, x)) else Allocated(d, g, x))
            == if InRun(Run(c, n), x) then on else Allocated(d, g, x)
  {
    var bits := g.BitsPerSector();
    if InRun(Run(c, n), x) {
      BitPlace(g, k, x - c + lo, x);
    } else if BitSectorOf(g, x) == g.BitmapFirst() + k {
      DivModFacts(x - FIRST_CLUSTER_ID, bits);
      assert (x - FIRST_CLUSTER_ID) / bits == k;
    }
  }

  ghost function Marked(alloc: set<nat>, r: Run, on: bool): set<nat> {
    if on then alloc + Clusters(r) else alloc - Clusters(r)
  }

  lemma BitmapSectorInRange(g: Geometry, k: nat)
    requires g.Valid() && k < g.bitmapSectors
    ensures FIRST_CLUSTER_ID <= g.bitmapCluster
    ensures g.BitmapFirst() + k < g.deviceSectors && g.KindOf(g.BitmapFirst() + k) == Kind.Bitmap
  {
  }

  lemma SizeFacts(g: Geometry)
    requires g.Valid()
    ensures g.size % 4 == 0
  {
    assert g.size == 4 * (8 * (g.size / 32));
  }

  lemma MulStep(k: nat, b: nat)
    ensures (k + 1) * b == k * b + b
  {
  }

  lemma ScanPastEnd(alloc: set<nat>, c: nat, end: nat, from: nat, n: nat, policy: Policy, st: ScanState)
    requires c >= end > from
    ensures Scan(alloc, Max(c, from), end, n, policy, st) == Scan(alloc, Max(end, from), end, n, policy, st)
  {
  }
}
