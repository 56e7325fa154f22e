/** Where the device can be behind the logical disk, spot by spot, and which spots belong to a cluster. */
module Spots {
  import opened Bytes
  import opened Chains
  import opened Disk

  /** A byte of a sector; in the allocation bitmap, where bits belong to different files, a bit. */
  datatype Spot = Spot(sector: nat, at: nat)

  ghost predicate DiffersAt(g: Geometry, s: nat, a: Block, b: Block, p: nat)
    requires g.Valid()
  {
    if g.KindOf(s) == Kind.Bitmap
    then p / 8 < |a| && p / 8 < |b| && SectorBit(a, p) != SectorBit(b, p)
    else p < |a| && p < |b| && a[p] != b[p]
  }

  /** The spots where the device and the logical disk differ. */
  ghost function Behind(g: Geometry, flat: seq<Block>, dev: seq<Block>): (u: set<Spot>)
    requires g.Valid()
    ensures forall x :: x in u <==>
              x.sector < |flat| && x.sector < |dev| && x.at < g.BitsPerSector()
                  && DiffersAt(g, x.sector, flat[x.sector], dev[x.sector], x.at)
  {
    set s: nat, p: nat | s < |flat| && s < |dev| && p < g.BitsPerSector()
        && DiffersAt(g, s, flat[s], dev[s], p) :: Spot(s, p)
  }

  ghost function SpotsOf(g: Geometry, s: nat): (u: set<Spot>)
    ensures forall x :: x in u <==> x.sector == s && x.at < g.BitsPerSector()
  {
    set p: nat | p < g.BitsPerSector() :: Spot(s, p)
  }

  /** The spots of sector `s` where blocks `a` and `b` differ. */
  ghost function NewSpots(g: Geometry, s: nat, a: Block, b: Block): (u: set<Spot>)
    requires g.Valid()
    ensures forall x :: x in u <==> x.sector == s && x.at < g.BitsPerSector() && DiffersAt(g, s, a, b, x.at)
  {
    set p: nat | p < g.BitsPerSector() && DiffersAt(g, s, a, b, p) :: Spot(s, p)
  }

  /** `n` bytes from `at` on, or `n` bits. */
  ghost function Span(s: nat, at: nat, n: nat): (u: set<Spot>)
    ensures forall x :: x in u <==> x.sector == s && at <= x.at < at + n
  {
    set p: nat | at <= p < at + n :: Spot(s, p)
  }

  lemma SplicedSpots(g: Geometry, s: nat, a: Block, at: nat, x: seq<byte>)
    requires g.Valid() && g.KindOf(s) != Kind.Bitmap && at + |x| <= |a|
    ensures NewSpots(g, s, a, Splice(a, at, x)) <= Span(s, at, |x|)
  {
    hide Geometry.KindOf, Geometry.Valid;
  }

  lemma BitsSpots(g: Geometry, s: nat, a: Block, b: Block, lo: nat, n: nat)
    requires g.Valid() && g.KindOf(s) == Kind.Bitmap && |a| == |b| == g.size
    requires forall p: nat :: p < g.BitsPerSector() && !(lo <= p < lo + n) ==> SectorBit(b, p) == SectorBit(a, p)
    ensures NewSpots(g, s, a, b) <= Span(s, lo, n)
  {
    hide Geometry.KindOf, Geometry.Valid, SectorBit;
  }

  // ---- what moves the device closer, and what moves it away ------------------------------------------

  lemma BehindSettled(g: Geometry, flat: seq<Block>, dev: seq<Block>, dev': seq<Block>)
    requires g.Valid() && |dev'| == |dev| == |flat|
    requires forall s :: 0 <= s < |dev| ==> dev'[s] == dev[s] || dev'[s] == flat[s]
    ensures Behind(g, flat, dev') <= Behind(g, flat, dev)
    ensures forall s :: 0 <= s < |dev| && dev'[s] == flat[s] ==> forall x :: x in Behind(g, flat, dev') ==> x.sector != s
  {
    hide Geometry.KindOf, Geometry.Valid;
  }

  lemma BehindStored(g: Geometry, flat: seq<Block>, dev: seq<Block>, s: nat, b: Block)
    requires g.Valid() && s < |flat| && |b| == |flat[s]|
    ensures Behind(g, flat[s := b], dev) <= Behind(g, flat, dev) + NewSpots(g, s, flat[s], b)
  {
    hide Geometry.KindOf, Geometry.Valid;
  }

  lemma BehindThrough(g: Geometry, flat: seq<Block>, dev: seq<Block>, s: nat, b: Block)
    requires g.Valid() && s < |flat| && s < |dev|
    ensures Behind(g, flat[s := b], dev[s := b]) <= Behind(g, flat, dev) - SpotsOf(g, s)
  {
    hide Geometry.KindOf, Geometry.Valid;
  }

  lemma {:induction false} BitsDecide(x: nat, y: nat, w: nat)
    requires x < Pow2(w) && y < Pow2(w) && forall k :: 0 <= k < w ==> BitOf(x, k) == BitOf(y, k)
    ensures x == y
    decreases w
  {
    if w > 0 {
      assert BitOf(x, 0) == BitOf(y, 0);
      forall k | 0 <= k < w - 1 ensures BitOf(x / 2, k) == BitOf(y / 2, k) {
        assert BitOf(x, k + 1) == BitOf(y, k + 1);
      }
      BitsDecide(x / 2, y / 2, w - 1);
    }
  }

  lemma SameSpots(g: Geometry, s: nat, a: Block, b: Block)
    requires g.Valid() && |a| == |b| == g.size && forall p: nat :: p < g.BitsPerSector() ==> !DiffersAt(g, s, a, b, p)
    ensures a == b
  {
    hide Geometry.KindOf, Geometry.Valid;
    forall i | 0 <= i < |a| ensures a[i] == b[i] {
      if g.KindOf(s) == Kind.Bitmap {
        assert Pow2(8) == 256 by { assert Pow2(4) == 16; }
        forall k | 0 <= k < 8 ensures BitOf(a[i], k) == BitOf(b[i], k) {
          assert (8 * i + k) / 8 == i && (8 * i + k) % 8 == k;
          assert !DiffersAt(g, s, a, b, 8 * i + k);
        }
        BitsDecide(a[i], b[i], 8);
      } else {
        assert !DiffersAt(g, s, a, b, i);
      }
    }
  }

  lemma NotBehind(g: Geometry, flat: seq<Block>, dev: seq<Block>)
    requires g.Valid() && Good(flat, g) && Good(dev, g)
    ensures Behind(g, flat, dev) == {} <==> dev == flat
  {
    hide Geometry.KindOf, Geometry.Valid, DiffersAt;
    if Behind(g, flat, dev) == {} {
      forall s | 0 <= s < |flat| ensures dev[s] == flat[s] {
        forall p: nat | p < g.BitsPerSector() ensures !DiffersAt(g, s, flat[s], dev[s], p) {
          assert Spot(s, p) !in Behind(g, flat, dev);
        }
        SameSpots(g, s, flat[s], dev[s]);
      }
    }
    if dev == flat {
      NoneDiffer(g, flat);
    }
  }

  lemma NoneDiffer(g: Geometry, flat: seq<Block>)
    requires g.Valid()
    ensures Behind(g, flat, flat) == {}
  {
    hide Geometry.KindOf, Geometry.Valid;
  }

  // ---- whose spots ------------------------------------------------------------------------------------

  /** The spot is part of what the volume holds of cluster `c`: its FAT entry, its bytes, or its bit. */
  ghost predicate ClusterSpot(g: Geometry, c: nat, x: Spot)
    requires g.Valid()
  {
    FIRST_CLUSTER_ID <= c < g.EndCluster() &&
    (|| x in Span(FatSectorOf(g, c), FatByteOf(g, c), 4)
     || (g.Stores(c) && g.HeapSector(c) <= x.sector < g.HeapSector(c) + g.sectorsPerCluster)
     || (c < g.BitEnd() && x == Spot(BitSectorOf(g, c), BitInSector(g, c))))
  }

  ghost predicate OwnSpot(g: Geometry, cs: seq<nat>, x: Spot)
    requires g.Valid()
  {
    exists c :: c in cs && ClusterSpot(g, c, x)
  }

  /** Everything in `u` belongs to the clusters `cs`. */
  ghost predicate Own(g: Geometry, cs: seq<nat>, u: set<Spot>)
    requires g.Valid()
  {
    forall x :: x in u ==> OwnSpot(g, cs, x)
  }

  lemma OwnAdds(g: Geometry, cs: seq<nat>, cs': seq<nat>, was: set<Spot>, now: set<Spot>)
    requires g.Valid() && Own(g, cs, was) && Adds(g, cs', was, now)
    requires forall c :: c in cs ==> c in cs'
    ensures Own(g, cs', now)
  {
    hide ClusterSpot;
  }

  /** From `was` to `now` only spots of the clusters `cs` were added. */
  ghost predicate Adds(g: Geometry, cs: seq<nat>, was: set<Spot>, now: set<Spot>)
    requires g.Valid()
  {
    was <= now && forall x :: x in now && x !in was ==> OwnSpot(g, cs, x)
  }

  lemma AddsTrans(g: Geometry, cs: seq<nat>, cs': seq<nat>, all: seq<nat>, a: set<Spot>, b: set<Spot>, c: set<Spot>)
    requires g.Valid() && Adds(g, cs, a, b) && Adds(g, cs', b, c)
    requires (forall k :: k in cs ==> k in all) && (forall k :: k in cs' ==> k in all)
    ensures Adds(g, all, a, c)
  {
    hide ClusterSpot;
  }

  lemma AddsNone(g: Geometry, cs: seq<nat>, a: set<Spot>)
    requires g.Valid()
    ensures Adds(g, cs, a, a)
  {
  }

  lemma FatSpotsOwn(g: Geometry, cs: seq<nat>, c: nat, was: set<Spot>)
    requires g.Valid() && c in cs && FIRST_CLUSTER_ID <= c < g.EndCluster()
    ensures Adds(g, cs, was, was + Span(FatSectorOf(g, c), FatByteOf(g, c), 4))
  {
    hide Geometry.KindOf, Geometry.Valid;
    forall x | x in Span(FatSectorOf(g, c), FatByteOf(g, c), 4) ensures OwnSpot(g, cs, x) {
      assert ClusterSpot(g, c, x);
    }
  }

  lemma BitSpotsOwn(g: Geometry, cs: seq<nat>, s: nat, lo: nat, n: nat, c: nat, was: set<Spot>)
    requires g.Valid() && s < g.bitmapSectors && lo + n <= g.BitsPerSector() && g.BitEnd() <= g.EndCluster()
    requires c == FIRST_CLUSTER_ID + s * g.BitsPerSector() + lo && c + n <= g.BitEnd()
    requires forall k :: c <= k < c + n ==> k in cs
    ensures Adds(g, cs, was, was + Span(g.BitmapFirst() + s, lo, n))
  {
    hide Geometry.KindOf, Geometry.BitEnd, Geometry.BitsPerSector, ClusterSpot, BitSectorOf, BitInSector;
    forall x | x in Span(g.BitmapFirst() + s, lo, n) ensures OwnSpot(g, cs, x) {
      BitSpotOwn(g, cs, s, c + (x.at - lo), x.at);
    }
  }

  lemma BitSpotOwn(g: Geometry, cs: seq<nat>, s: nat, k: nat, p: nat)
    requires g.Valid() && g.BitEnd() <= g.EndCluster() && p < g.BitsPerSector() && k in cs
    requires k == FIRST_CLUSTER_ID + s * g.BitsPerSector() + p && k < g.BitEnd()
    ensures OwnSpot(g, cs, Spot(g.BitmapFirst() + s, p))
  {
    hide Geometry.KindOf, Geometry.BitEnd, Geometry.BitsPerSector, ClusterSpot, BitSectorOf, BitInSector,
         Geometry.Valid;
    BitSpotAt(g, s, k, p);
    BitSpotIs(g, k);
  }

  lemma BitSpotAt(g: Geometry, s: nat, k: nat, p: nat)
    requires g.Valid() && FIRST_CLUSTER_ID <= k < g.BitEnd()
    requires p < g.BitsPerSector() && k - FIRST_CLUSTER_ID == s * g.BitsPerSector() + p
    ensures BitSectorOf(g, k) == g.BitmapFirst() + s && BitInSector(g, k) == p
  {
    hide Geometry.KindOf, Geometry.BitsPerSector, Geometry.Valid, Geometry.BitEnd;
    DivModUnique(k - FIRST_CLUSTER_ID, g.BitsPerSector(), s, p);
  }

  lemma BitSpotIs(g: Geometry, c: nat)
    requires g.Valid() && FIRST_CLUSTER_ID <= c < g.BitEnd() && g.BitEnd() <= g.EndCluster()
    ensures ClusterSpot(g, c, Spot(BitSectorOf(g, c), BitInSector(g, c)))
  {
    hide Geometry.KindOf, Geometry.Valid, Geometry.BitEnd;
  }

  lemma DataSpotsOwn(g: Geometry, cs: seq<nat>, c: nat, s: nat, was: set<Spot>)
    requires g.Valid() && c in cs && g.Stores(c) && g.HeapSector(c) <= s < g.HeapSector(c) + g.sectorsPerCluster
    ensures Adds(g, cs, was, was + SpotsOf(g, s))
  {
    hide Geometry.KindOf, Geometry.Valid;
    forall x | x in SpotsOf(g, s) ensures OwnSpot(g, cs, x) {
      assert ClusterSpot(g, c, x);
    }
  }

  lemma SpanOwn(g: Geometry, cs: seq<nat>, s: nat, at: nat, n: nat, was: set<Spot>)
    requires g.Valid() && at + n <= g.size && Adds(g, cs, was, was + SpotsOf(g, s))
    ensures Adds(g, cs, was, was + Span(s, at, n))
  {
    hide OwnSpot;
    assert Span(s, at, n) <= SpotsOf(g, s);
  }

  /** Different clusters have no spot in common. */
  lemma SpotsApart(g: Geometry, c: nat, c': nat, x: Spot)
    requires g.Valid() && ClusterSpot(g, c, x) && ClusterSpot(g, c', x)
    ensures c == c'
  {
    hide Geometry.Valid, Geometry.KindOf, FatSectorOf, FatByteOf, BitSectorOf, BitInSector, Geometry.HeapSector,
         Geometry.Stores;
    NotElsewhere(g, c, x);
    NotElsewhere(g, c', x);
    match g.KindOf(x.sector)
    case Fat => FatSpotsApart(g, c, c', x);
    case Bitmap => BitSpotsApart(g, c, c');
    case Data =>
      if c < c' { ClustersApart(g, c, c'); }
      if c' < c { ClustersApart(g, c', c); }
  }

  lemma BitSpotsApart(g: Geometry, c: nat, c': nat)
    requires g.Valid() && FIRST_CLUSTER_ID <= c < g.BitEnd() && FIRST_CLUSTER_ID <= c' < g.BitEnd()
    requires BitSectorOf(g, c) == BitSectorOf(g, c') && BitInSector(g, c) == BitInSector(g, c')
    ensures c == c'
  {
    hide Geometry.KindOf, Geometry.BitsPerSector;
    DivModFacts(c - FIRST_CLUSTER_ID, g.BitsPerSector());
    DivModFacts(c' - FIRST_CLUSTER_ID, g.BitsPerSector());
  }

  /** The kind of its sector tells what a spot is of its cluster. */
  lemma NotElsewhere(g: Geometry, c: nat, x: Spot)
    requires g.Valid() && ClusterSpot(g, c, x)
    ensures g.KindOf(x.sector) == Kind.Fat <==> x in Span(FatSectorOf(g, c), FatByteOf(g, c), 4)
    ensures g.KindOf(x.sector) == Kind.Bitmap <==> c < g.BitEnd() && x == Spot(BitSectorOf(g, c), BitInSector(g, c))
    ensures g.KindOf(x.sector) == Kind.Data <==>
          && g.Stores(c)
          && g.HeapSector(c) <= x.sector < g.HeapSector(c) + g.sectorsPerCluster
  {
    hide Geometry.Valid;
    if g.Stores(c) && g.HeapSector(c) <= x.sector < g.HeapSector(c) + g.sectorsPerCluster {
      SectorInCluster(g, c, 0);
      HeapSectorKind(g, c, x.sector);
    }
  }

  lemma FatSpotsApart(g: Geometry, c: nat, c': nat, x: Spot)
    requires g.Valid() && c < g.EndCluster() && c' < g.EndCluster()
    requires x in Span(FatSectorOf(g, c), FatByteOf(g, c), 4) && x in Span(FatSectorOf(g, c'), FatByteOf(g, c'), 4)
    ensures c == c'
  {
    DivModFacts(c, g.FatEntries());
    DivModFacts(c', g.FatEntries());
  }

  // ---- what agrees where no spot is behind --------------------------------------------------------------

  /** Nothing the volume holds of cluster `c` is behind. */
  ghost predicate Caught(g: Geometry, c: nat, u: set<Spot>)
    requires g.Valid()
  {
    forall x :: x in u ==> !ClusterSpot(g, c, x)
  }

  lemma FatCaught(d: seq<Block>, d': seq<Block>, g: Geometry, c: nat)
    requires g.Valid() && Good(d, g) && Good(d', g) && FIRST_CLUSTER_ID <= c < g.EndCluster()
             && Caught(g, c, Behind(g, d, d'))
    ensures FatEntry(d', g, c) == FatEntry(d, g, c)
  {
    hide Geometry.KindOf, Geometry.Valid;
    var s, o := FatSectorOf(g, c), FatByteOf(g, c);
    forall p | o <= p < o + 4 ensures d'[s][p] == d[s][p] {
      assert ClusterSpot(g, c, Spot(s, p));
      assert Spot(s, p) !in Behind(g, d, d');
    }
    assert d'[s][o..o + 4] == d[s][o..o + 4];
  }

  lemma ClusterInside(g: Geometry, c: nat)
    requires g.Valid() && FIRST_CLUSTER_ID <= c < g.EndCluster()
    ensures g.HeapSector(c) + g.sectorsPerCluster <= g.deviceSectors
  {
    SectorInCluster(g, c, 0);
  }

  lemma DataCaught(d: seq<Block>, d': seq<Block>, g: Geometry, c: nat)
    requires g.Valid() && Good(d, g) && Good(d', g) && c < g.EndCluster() && Caught(g, c, Behind(g, d, d'))
    ensures ClusterData(d', g, c) == ClusterData(d, g, c)
  {
    hide Geometry.KindOf, Geometry.Valid;
    if g.Stores(c) {
      ClusterInside(g, c);
      forall s | g.HeapSector(c) <= s < g.HeapSector(c) + g.sectorsPerCluster && s < |d| ensures d'[s] == d[s] {
        forall p: nat | p < g.BitsPerSector() ensures !DiffersAt(g, s, d[s], d'[s], p) {
          assert ClusterSpot(g, c, Spot(s, p));
          assert Spot(s, p) !in Behind(g, d, d');
        }
        SameSpots(g, s, d[s], d'[s]);
      }
      DataFrameAt(d, d', g, c);
    }
  }

  lemma BitCaught(d: seq<Block>, d': seq<Block>, g: Geometry, c: nat)
    requires g.Valid() && Good(d, g) && Good(d', g) && FIRST_CLUSTER_ID <= c < g.BitEnd() && Caught(g, c, Behind(g, d, d'))
    requires g.BitEnd() <= g.EndCluster()
    ensures Allocated(d', g, c) == Allocated(d, g, c)
  {
    hide Geometry.Valid;
    var x := Spot(BitSectorOf(g, c), BitInSector(g, c));
    assert ClusterSpot(g, c, x);
    assert x !in Behind(g, d, d');
    DivModFacts(c - FIRST_CLUSTER_ID, g.BitsPerSector());
  }
}
