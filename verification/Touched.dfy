/** The bounded list of sectors a file or an operation has touched (src/file.rs, FileDirty). */
module Touched {
  import opened Bytes
  import opened Disk
  import opened SlotCache
  import opened Spots
  import opened Volume

  datatype TouchedKind = DataSector | FatSector | BitmapSector | DirSector

  datatype TouchedSector = TouchedSector(kind: TouchedKind, sector: nat)

  const DEFAULT_TOUCHED_SECTORS: nat := 6

  function Rank(k: TouchedKind): nat {
    match k
    case DataSector => 0
    case BitmapSector => 1
    case FatSector => 2
    case DirSector => 3
  }

  /** The cache that serves sectors touched as `k`. */
  function CacheOf(k: TouchedKind): Kind {
    match k
    case BitmapSector => Kind.Bitmap
    case FatSector => Kind.Fat
    case DataSector => Kind.Data
    case DirSector => Kind.Data
  }

  predicate Before(a: TouchedSector, b: TouchedSector) {
    Rank(a.kind) < Rank(b.kind) || (Rank(a.kind) == Rank(b.kind) && a.sector <= b.sector)
  }

  ghost predicate Ordered(s: seq<TouchedSector>) {
    forall i, j :: 0 <= i < j < |s| ==> Before(s[i], s[j])
  }

  function Place(x: TouchedSector, s: seq<TouchedSector>): (r: seq<TouchedSector>)
    requires Ordered(s)
    ensures Ordered(r)
    ensures multiset(r) == multiset(s) + multiset{x}
  {
    if s == [] || Before(x, s[0]) then [x] + s
    else
      assert s == [s[0]] + s[1..];
      var rest := Place(x, s[1..]);
      assert forall i :: 0 <= i < |rest| ==> Before(s[0], rest[i]) by {
        forall i | 0 <= i < |rest| ensures Before(s[0], rest[i]) {
          assert rest[i] in multiset(rest);
          if rest[i] != x {
            assert rest[i] in s[1..];
          }
        }
      }
      [s[0]] + rest
  }

  /** The flush order: by rank of the kind, then by sector number. */
  function Sort(s: seq<TouchedSector>): (r: seq<TouchedSector>)
    ensures Ordered(r)
    ensures multiset(r) == multiset(s)
    ensures forall y :: y in r <==> y in s
  {
    if s == [] then []
    else
      assert s == [s[0]] + s[1..];
      var r := Place(s[0], Sort(s[1..]));
      assert forall y :: y in r <==> y in multiset(r);
      r
  }

  ghost function SectorsOf(s: seq<TouchedSector>): set<nat> {
    set x | x in s :: x.sector
  }

  /** Sorting does not change which cache serves which sector. */
  lemma SortServed(s: seq<TouchedSector>, g: Geometry)
    requires g.Valid() && forall x :: x in s ==> x.sector < g.deviceSectors && g.KindOf(x.sector) == CacheOf(x.kind)
    ensures forall i :: 0 <= i < |Sort(s)| ==>
              Sort(s)[i].sector < g.deviceSectors && g.KindOf(Sort(s)[i].sector) == CacheOf(Sort(s)[i].kind)
  {
    forall i | 0 <= i < |Sort(s)| ensures Sort(s)[i] in s {
      assert Sort(s)[i] in Sort(s);
    }
  }

  lemma SortedSectors(s: seq<TouchedSector>)
    ensures SectorsOf(Sort(s)) == SectorsOf(s)
  {
  }

  ghost function Numbers(s: seq<TouchedSector>): (r: seq<nat>)
    ensures |r| == |s| && forall i :: 0 <= i < |r| ==> r[i] == s[i].sector
  {
    seq(|s|, i requires 0 <= i < |s| => s[i].sector)
  }

  /** `written` are touched sectors of the list, none more often than listed, in the flush order. */
  ghost predicate SavedInOrder(list: seq<TouchedSector>, written: seq<TouchedSector>) {
    Ordered(written) && multiset(written) <= multiset(list)
  }

  /** Data comes before the bitmap, the bitmap before the FAT, and the FAT before directory entries. */
  lemma InTurn(sectors: seq<TouchedSector>, written: seq<TouchedSector>, i: nat, j: nat)
    requires SavedInOrder(sectors, written) && i < j < |written|
    ensures written[j].kind == DataSector ==> written[i].kind == DataSector
    ensures written[j].kind == BitmapSector ==> written[i].kind == DataSector || written[i].kind == BitmapSector
    ensures written[j].kind == FatSector ==> written[i].kind != DirSector
  {
  }

  lemma NothingSaved(list: seq<TouchedSector>)
    ensures SavedInOrder(list[..0], []) && Numbers([]) == []
  {
  }

  lemma SortedSaved(list: seq<TouchedSector>, written: seq<TouchedSector>)
    requires SavedInOrder(Sort(list), written)
    ensures SavedInOrder(list, written)
  {
  }

  /** Saving the next sector of a list in order, or finding it clean, keeps the order. */
  lemma SaveOneMore(list: seq<TouchedSector>, i: nat, written: seq<TouchedSector>)
    requires Ordered(list) && i < |list| && SavedInOrder(list[..i], written)
    ensures SavedInOrder(list[..i + 1], written) && SavedInOrder(list[..i + 1], written + [list[i]])
    ensures Numbers(written + [list[i]]) == Numbers(written) + [list[i].sector]
  {
    assert list[..i + 1] == list[..i] + [list[i]];
    forall j | 0 <= j < |written| ensures Before(written[j], list[i]) {
      assert written[j] in multiset(written) && written[j] in multiset(list[..i]);
      assert written[j] in list[..i];
    }
  }

  /** No sector is listed twice. */
  ghost predicate Numbered(s: seq<TouchedSector>) {
    forall i, j :: 0 <= i < j < |s| ==> s[i].sector != s[j].sector
  }

  // ---- the order in which everything is written --------------------------------------------------------

  /** The turn of a sector in the order Data, Bitmap, FAT, Dir; `dirs` are the sectors of directories. */
  ghost function SaveRank(g: Geometry, dirs: set<nat>, s: nat): nat
    requires g.Valid()
  {
    match g.KindOf(s)
    case Bitmap => Rank(BitmapSector)
    case Fat => Rank(FatSector)
    case Data => if s in dirs then Rank(DirSector) else Rank(DataSector)
  }

  ghost predicate InSaveOrder(g: Geometry, dirs: set<nat>, log: seq<nat>)
    requires g.Valid()
  {
    forall i, j :: 0 <= i < j < |log| ==> SaveRank(g, dirs, log[i]) <= SaveRank(g, dirs, log[j])
  }

  /** Everything the caches would write back, cache by cache. */
  ghost function AllDirty(vol: Volume): seq<nat>
    reads vol.fat.slots, vol.bitmap.slots, vol.data.slots
  {
    vol.Dirty(Kind.Fat) + vol.Dirty(Kind.Bitmap) + vol.Dirty(Kind.Data)
  }

  /** If a FAT sector is dirty, no bitmap sector and no plain data sector is; if a bitmap sector is dirty, no
      plain data sector is; and no dirty directory sector comes before a plain one in the data cache. */
  ghost predicate KeepsOrder(vol: Volume, dirs: set<nat>)
    reads vol.fat.slots, vol.bitmap.slots, vol.data.slots
  {
    var fat, bitmap, data := vol.Dirty(Kind.Fat), vol.Dirty(Kind.Bitmap), vol.Dirty(Kind.Data);
    && (fat != [] ==> bitmap == [] && forall s :: s in data ==> s in dirs)
    && (bitmap != [] ==> forall s :: s in data ==> s in dirs)
    && (forall i, j :: 0 <= i < j < |data| && data[i] in dirs ==> data[j] in dirs)
  }

  /** Writing cache by cache keeps the order exactly under that condition. */
  lemma OverflowOrder(vol: Volume, dirs: set<nat>)
    requires vol.Valid()
    ensures InSaveOrder(vol.g, dirs, AllDirty(vol)) <==> KeepsOrder(vol, dirs)
  {
    hide Volume.Coherent, Geometry.KindOf, Geometry.Valid, Volume.Dirty, Good;
    var fat, bitmap, data := vol.Dirty(Kind.Fat), vol.Dirty(Kind.Bitmap), vol.Dirty(Kind.Data);
    vol.DirtyKind(Kind.Fat);
    vol.DirtyKind(Kind.Bitmap);
    vol.DirtyKind(Kind.Data);
    ThreeParts(vol.g, dirs, fat, bitmap, data);
  }

  lemma ThreeParts(g: Geometry, dirs: set<nat>, fat: seq<nat>, bitmap: seq<nat>, data: seq<nat>)
    requires g.Valid()
    requires forall s :: s in fat ==> g.KindOf(s) == Kind.Fat
    requires forall s :: s in bitmap ==> g.KindOf(s) == Kind.Bitmap
    requires forall s :: s in data ==> g.KindOf(s) == Kind.Data
    ensures InSaveOrder(g, dirs, fat + bitmap + data) <==>
              && (fat != [] ==> bitmap == [] && forall s :: s in data ==> s in dirs)
              && (bitmap != [] ==> forall s :: s in data ==> s in dirs)
              && (forall i, j :: 0 <= i < j < |data| && data[i] in dirs ==> data[j] in dirs)
  {
    hide Geometry.KindOf, Geometry.Valid;
    var log, f, b := fat + bitmap + data, |fat|, |fat| + |bitmap|;
    assert forall i :: 0 <= i < f ==> log[i] == fat[i] && SaveRank(g, dirs, log[i]) == 2;
    assert forall i :: f <= i < b ==> log[i] == bitmap[i - f] && SaveRank(g, dirs, log[i]) == 1;
    assert forall i :: b <= i < |log| ==>
          && log[i] == data[i - b]
          && SaveRank(g, dirs, log[i]) == if data[i - b] in dirs then 3 else 0;
    if fat != [] && bitmap != [] {
      assert SaveRank(g, dirs, log[0]) == 2 && SaveRank(g, dirs, log[f]) == 1;
      assert !InSaveOrder(g, dirs, log);
    }
    if InSaveOrder(g, dirs, log) {
      forall i | 0 <= i < |data| && b > 0 ensures data[i] in dirs {
        assert SaveRank(g, dirs, log[0]) <= SaveRank(g, dirs, log[b + i]);
      }
      forall i, j | 0 <= i < j < |data| && data[i] in dirs ensures data[j] in dirs {
        assert SaveRank(g, dirs, log[b + i]) <= SaveRank(g, dirs, log[b + j]);
      }
    }
  }

  class FileDirty {
    const capacity: nat
    var sectors: seq<TouchedSector>
    var overflowed: bool
    var isDirEntryDirty: bool
    ghost var inserted: set<Spot>  // what was written since the last flush

    /** Unless the list overflowed it covers all insertions, each sector once, under the cache that serves
        it. */
    ghost predicate Valid(g: Geometry)
      requires g.Valid()
      reads this
    {
      && |sectors| <= capacity && Numbered(sectors)
      && (forall x :: x in sectors ==> x.sector < g.deviceSectors && g.KindOf(x.sector) == CacheOf(x.kind))
      && (overflowed || forall x :: x in inserted ==> x.sector in SectorsOf(sectors))
    }

    constructor (capacity: nat, ghost g: Geometry)
      requires g.Valid()
      ensures Valid(g) && inserted == {} && !isDirEntryDirty
      ensures this.capacity == capacity && sectors == [] && !overflowed
    {
      this.capacity := capacity;
      sectors := [];
      overflowed := false;
      isDirEntryDirty := false;
      inserted := {};
    }

    /** Insertions are deduplicated by sector number alone. A new sector goes to the end of the list, or
        makes it overflow when it is full. */
    method Insert(kind: TouchedKind, sector: nat, ghost spots: set<Spot>, ghost g: Geometry)
      requires g.Valid() && Valid(g) && sector < g.deviceSectors && g.KindOf(sector) == CacheOf(kind)
      requires forall x :: x in spots ==> x.sector == sector
      modifies this
      ensures Valid(g)
      ensures inserted == old(inserted) + spots
      ensures isDirEntryDirty == old(isDirEntryDirty)
      ensures sectors == if sector in SectorsOf(old(sectors)) || |old(sectors)| == capacity then old(sectors)
                         else old(sectors) + [TouchedSector(kind, sector)]
      ensures overflowed <==> old(overflowed) || (sector !in SectorsOf(old(sectors)) && |old(sectors)| == capacity)
    {
      var x := TouchedSector(kind, sector);
      if sector !in (set y | y in sectors :: y.sector) {
        if |sectors| < capacity {
          assert SectorsOf(sectors + [x]) == SectorsOf(sectors) + {sector};
          sectors := sectors + [x];
        } else {
          overflowed := true;
        }
      }
      inserted := inserted + spots;
    }

    /** The sectors on the list are saved in their order. */
    method FlushListed(vol: Volume) returns (ghost written: seq<TouchedSector>)
      requires vol.Valid() && Valid(vol.g)
      modifies this`sectors, vol.Footprint() - {vol}
      ensures vol.Valid() && vol.Unsaved() <= old(vol.Unsaved())
      ensures forall x :: x in vol.Unsaved() ==> x.sector !in SectorsOf(old(sectors))
      ensures SavedInOrder(old(sectors), written) && vol.dev.log == old(vol.dev.log) + Numbers(written)
    {
      hide Volume.Coherent, Volume.Unsaved, Volume.View, Geometry.KindOf, Geometry.Valid, Sort, Ordered, SavedInOrder,
           Numbers, Numbered;
      SortServed(sectors, vol.g);
      var list := Sort(sectors);
      sectors := list;
      written := [];
      NothingSaved(list);
      for i := 0 to |list|
        invariant vol.Valid() && vol.Unsaved() <= old(vol.Unsaved())
        invariant forall j, x :: 0 <= j < i && x in vol.Unsaved() ==> x.sector != list[j].sector
        invariant SavedInOrder(list[..i], written) && vol.dev.log == old(vol.dev.log) + Numbers(written)
      {
        ghost var log := vol.dev.log;
        SaveOneMore(list, i, written);
        vol.FlushSector(CacheOf(list[i].kind), list[i].sector);
        if vol.dev.log != log {
          written := written + [list[i]];
        }
        vol.InDevice();
      }
      assert list[..|list|] == list;
      SortedSectors(old(sectors));
      SortedSaved(old(sectors), written);
    }

    /** Saves everything inserted since the last flush: afterwards the device agrees with the flat
        disk there, whether or not the list overflowed and whether or not a sector had already been
        evicted. Without overflow the device is written in Data, Bitmap, FAT, Dir order, and with
        nothing but sectors on the list. With overflow every dirty sector of the volume is written, the
        FAT first and the data last; that is in this order exactly when what was dirty allows it. */
    method Flush(vol: Volume) returns (ghost written: seq<TouchedSector>)
      requires vol.Valid() && Valid(vol.g)
      modifies this, vol.Footprint() - {vol}
      ensures vol.Valid() && Valid(vol.g) && inserted == {} && !isDirEntryDirty
      ensures vol.Unsaved() <= old(vol.Unsaved()) - old(inserted)
      ensures !old(overflowed) ==>
                SavedInOrder(old(sectors), written) && vol.dev.log == old(vol.dev.log) + Numbers(written)
      ensures old(overflowed) ==>
                vol.dev.log == old(vol.dev.log) + old(AllDirty(vol))
                && forall dirs :: InSaveOrder(vol.g, dirs, old(AllDirty(vol))) <==> old(KeepsOrder(vol, dirs))
    {
      hide Volume.Coherent, Volume.Unsaved, Volume.Dirty, InSaveOrder, KeepsOrder, SavedInOrder, Numbers, Good;
      if overflowed {
        ghost var log := vol.dev.log;
        forall dirs ensures InSaveOrder(vol.g, dirs, AllDirty(vol)) <==> KeepsOrder(vol, dirs) {
          OverflowOrder(vol, dirs);
        }
        vol.FlushAll();
        written := [];
      } else {
        written := FlushListed(vol);
      }
      sectors := [];
      overflowed := false;
      isDirEntryDirty := false;
      inserted := {};
    }
  }
}
