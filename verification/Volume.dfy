/** One device behind three sector caches, one each for the allocation bitmap, the FAT and the
    data (src/file_system.rs, FileSystem). Together they are one flat disk. */
module Volume {
  import opened Bytes
  import opened Disk
  import opened SlotCache
  import opened Spots

  ghost function Region(g: Geometry, k: Kind): (r: set<nat>)
    requires g.Valid()
  {
    set s: nat | s < g.deviceSectors && g.KindOf(s) == k
  }

  /** A cache does not notice changes outside its own region. */
  lemma ShowsFrame(slots: seq<Slot>, dev: seq<Block>, dev': seq<Block>, flat: seq<Block>, flat': seq<Block>,
                   region: set<nat>)
    requires Shows(slots, dev, flat, region) && |dev'| == |flat'| == |dev|
    requires forall s :: 0 <= s < |dev| && s in region ==> dev'[s] == dev[s] && flat'[s] == flat[s]
    ensures Shows(slots, dev', flat', region)
  {
  }

  /** The device took over blocks of the logical disk, and only in sectors of kind `k`. */
  ghost predicate TookOver(g: Geometry, k: Kind, dev: seq<Block>, dev': seq<Block>, flat: seq<Block>)
    requires g.Valid()
  {
    && |dev'| == |dev| == |flat|
    && forall s :: 0 <= s < |dev| ==> dev'[s] == dev[s] || (g.KindOf(s) == k && dev'[s] == flat[s])
  }

  lemma TookOverGood(g: Geometry, k: Kind, dev: seq<Block>, dev': seq<Block>, flat: seq<Block>)
    requires g.Valid() && TookOver(g, k, dev, dev', flat) && Good(dev, g) && Good(flat, g)
    ensures Good(dev', g) && Behind(g, flat, dev') <= Behind(g, flat, dev)
  {
    hide Geometry.Valid, Geometry.KindOf;
    BehindSettled(g, flat, dev, dev');
  }

  class Volume {
    const g: Geometry
    const dev: Device
    const bitmap: SlotCache
    const fat: SlotCache
    const data: SlotCache
    ghost var flat: seq<Block>

    function Cache(k: Kind): SlotCache {
      match k
      case Bitmap => bitmap
      case Fat => fat
      case Data => data
    }

    ghost function Footprint(): set<object> {
      {this, dev, bitmap, fat, data, bitmap.slots, fat.slots, data.slots}
    }

    ghost predicate Apart() {
      && bitmap != fat && bitmap != data && fat != data
      && bitmap.slots != fat.slots && bitmap.slots != data.slots && fat.slots != data.slots
    }

    ghost predicate Valid()
      reads this, Footprint()
    {
      g.Valid() && Good(flat, g) && Good(dev.blocks, g) && Apart() && Coherent()
    }

    /** Each cache shows the flat disk on its own region. */
    ghost predicate Coherent()
      requires g.Valid()
      reads this, Footprint()
    {
      && bitmap.region == Region(g, Kind.Bitmap) && bitmap.Valid(dev.blocks, flat)
      && fat.region == Region(g, Kind.Fat) && fat.Valid(dev.blocks, flat)
      && data.region == Region(g, Kind.Data) && data.Valid(dev.blocks, flat)
    }

    /** The flat disk as allocation bits, FAT entries and cluster bytes. */
    ghost function View(): (v: Vol)
      requires g.Valid() && Good(flat, g)
      reads this
      ensures |v.fat| == |v.data| == g.EndCluster()
    {
      Abs(flat, g)
    }

    /** Where the device is behind the flat disk. */
    ghost function Unsaved(): (u: set<Spot>)
      reads this, dev
    {
      if g.Valid() then Behind(g, flat, dev.blocks) else {}
    }

    /** The sectors that cache `k` would write back. */
    ghost function Dirty(k: Kind): seq<nat>
      reads Cache(k).slots
    {
      DirtySectors(Cache(k).slots[..])
    }

    /** Mounting with empty caches: the flat disk is the device. */
    constructor (g: Geometry, dev: Device, n: nat)
      requires g.Valid() && Good(dev.blocks, g) && n > 0
      ensures Valid() && this.g == g && this.dev == dev && flat == dev.blocks && Unsaved() == {}
      ensures fresh(Footprint() - {dev})
    {
      this.g := g;
      this.dev := dev;
      bitmap := new SlotCache(n, g.size, Region(g, Kind.Bitmap));
      fat := new SlotCache(n, g.size, Region(g, Kind.Fat));
      data := new SlotCache(n, g.size, Region(g, Kind.Data));
      flat := dev.blocks;
      new;
      NoneDiffer(g, flat);
    }

    /** A step of cache `k` that changes the device and the flat disk only inside its own region
        leaves the other two caches valid. */
    lemma OthersKeep(k: Kind, dev0: seq<Block>, flat0: seq<Block>)
      requires g.Valid() && Apart() && Good(flat, g) && Good(dev.blocks, g)
      requires bitmap.region == Region(g, Kind.Bitmap) && fat.region == Region(g, Kind.Fat)
      requires data.region == Region(g, Kind.Data)
      requires Cache(k).Valid(dev.blocks, flat)
      requires k != Kind.Bitmap ==> bitmap.Valid(dev0, flat0)
      requires k != Kind.Fat ==> fat.Valid(dev0, flat0)
      requires k != Kind.Data ==> data.Valid(dev0, flat0)
      requires |dev0| == |flat0| == |flat|
      requires forall s :: 0 <= s < |flat| && g.KindOf(s) != k ==> dev.blocks[s] == dev0[s] && flat[s] == flat0[s]
      ensures Valid()
    {
      if k != Kind.Bitmap { ShowsFrame(bitmap.slots[..], dev0, dev.blocks, flat0, flat, bitmap.region); }
      if k != Kind.Fat { ShowsFrame(fat.slots[..], dev0, dev.blocks, flat0, flat, fat.region); }
      if k != Kind.Data { ShowsFrame(data.slots[..], dev0, dev.blocks, flat0, flat, data.region); }
    }

    /** `SlotCache::read_mut`: the slot holding a sector, brought in if need be. */
    method ReadMut(k: Kind, s: nat) returns (i: nat)
      requires Valid() && s < |flat| && g.KindOf(s) == k
      modifies Footprint() - {this}
      ensures Valid()
      ensures i < Cache(k).slots.Length && Holds(Cache(k).slots[i], s)
      ensures Cache(k).slots[i].block == flat[s]
      ensures Unsaved() <= old(Unsaved()) && TookOver(g, k, old(dev.blocks), dev.blocks, flat)
    {
      hide Core, HandOk, Behind;
      i := Cache(k).ReadInner(dev, s, flat);
      TookOverGood(g, k, old(dev.blocks), dev.blocks, flat);
      OthersKeep(k, old(dev.blocks), flat);
    }

    /** `SlotCache::read`. */
    method Read(k: Kind, s: nat) returns (b: Block)
      requires Valid() && s < |flat| && g.KindOf(s) == k
      modifies Footprint() - {this}
      ensures Valid()
      ensures b == flat[s]
      ensures Unsaved() <= old(Unsaved())
    {
      var i := ReadMut(k, s);
      b := Cache(k).slots[i].block;
    }

    /** A store through the slot that `ReadMut` returned for sector `s`. */
    method Store(k: Kind, i: nat, ghost s: nat, b: Block)
      requires Valid() && i < Cache(k).slots.Length && Holds(Cache(k).slots[i], s)
      requires s < |flat| && g.KindOf(s) == k && |b| == g.size
      modifies this, Cache(k).slots
      ensures Valid()
      ensures flat == old(flat)[s := b]
      ensures Unsaved() <= old(Unsaved()) + NewSpots(g, s, old(flat)[s], b)
    {
      hide Core, Behind;
      Cache(k).Store(i, b, dev.blocks, flat);
      BehindStored(g, flat, dev.blocks, s, b);
      flat := flat[s := b];
      OthersKeep(k, dev.blocks, old(flat));
    }

    /** `read_mut` followed by `copy_from_slice` into part of the sector. */
    method Patch(k: Kind, s: nat, at: nat, x: seq<byte>)
      requires Valid() && s < |flat| && g.KindOf(s) == k && k != Kind.Bitmap && at + |x| <= g.size
      modifies Footprint()
      ensures Valid()
      ensures flat == old(flat)[s := Splice(old(flat)[s], at, x)]
      ensures Unsaved() <= old(Unsaved()) + Span(s, at, |x|)
      ensures TookOver(g, k, old(dev.blocks), dev.blocks, old(flat))
    {
      hide Volume.Coherent, Volume.Unsaved;
      SplicedSpots(g, s, flat[s], at, x);
      var i := ReadMut(k, s);
      Store(k, i, s, Splice(Cache(k).slots[i].block, at, x));
    }

    /** `SlotCache::write`: a whole block straight to the device. */
    method WriteThrough(s: nat, b: Block)
      requires Valid() && s < |flat| && g.KindOf(s) == Kind.Data && |b| == g.size
      modifies Footprint()
      ensures Valid()
      ensures flat == old(flat)[s := b]
      ensures Unsaved() <= old(Unsaved()) - SpotsOf(g, s)
    {
      hide Core, HandOk, Behind;
      BehindThrough(g, flat, dev.blocks, s, b);
      data.Write(dev, s, b, flat);
      flat := flat[s := b];
      OthersKeep(Kind.Data, old(dev.blocks), old(flat));
    }

    /** Cache `k` is written out: exactly its dirty sectors, in slot order. */
    method FlushCache(k: Kind)
      requires Valid()
      modifies dev, Cache(k).slots
      ensures Valid()
      ensures Unsaved() <= old(Unsaved()) && forall x :: x in Unsaved() ==> g.KindOf(x.sector) != k
      ensures dev.log == old(dev.log) + old(Dirty(k))
    {
      hide Core, HandOk, Behind;
      Cache(k).Flush(dev, flat);
      TookOverGood(g, k, old(dev.blocks), dev.blocks, flat);
      BehindSettled(g, flat, old(dev.blocks), dev.blocks);
      OthersKeep(k, old(dev.blocks), flat);
      InDevice();
    }

    /** What a cache would write back are sectors of its kind, each once. */
    lemma DirtyKind(k: Kind)
      requires Valid()
      ensures forall s :: s in Dirty(k) ==> s < |flat| && g.KindOf(s) == k
      ensures forall i, j :: 0 <= i < j < |Dirty(k)| ==> Dirty(k)[i] != Dirty(k)[j]
    {
      hide Geometry.KindOf, Geometry.Valid, Good, DirtySectors;
      var slots := Cache(k).slots[..];
      forall s | s in Dirty(k) ensures s < |flat| && g.KindOf(s) == k {
        DirtyListed(slots, s);
        var i :| 0 <= i < |slots| && slots[i].dirty && slots[i].sector == s;
        assert s in Region(g, k);
      }
      forall i, j | 0 <= i < j < |Dirty(k)| ensures Dirty(k)[i] != Dirty(k)[j] {
        DirtyOnce(slots, i, j);
      }
    }

    /** Where the device is behind, a cache would write back. */
    lemma BehindDirty(s: nat)
      requires Valid() && s < |flat| && dev.blocks[s] != flat[s]
      ensures s in Dirty(g.KindOf(s))
    {
      hide Geometry.KindOf, Geometry.Valid, DirtySectors;
      var slots := Cache(g.KindOf(s)).slots[..];
      assert s in Region(g, g.KindOf(s));
      assert DirtyHolds(slots, s);
      DirtyListed(slots, s);
    }

    lemma InDevice()
      requires g.Valid() && |flat| == |dev.blocks|
      ensures forall x :: x in Unsaved() ==> x.sector < |flat| && x.at < g.BitsPerSector()
    {
    }

    /** `FileSystem::flush`: afterwards nothing is unsaved. The dirty sectors of the FAT are written first,
        then those of the bitmap, then the others. */
    method FlushAll()
      requires Valid()
      modifies Footprint() - {this}
      ensures Valid()
      ensures Unsaved() == {}
      ensures dev.log == old(dev.log) + old(Dirty(Kind.Fat)) + old(Dirty(Kind.Bitmap)) + old(Dirty(Kind.Data))
    {
      hide Volume.Coherent, Volume.Unsaved, DirtySectors, Geometry.KindOf, Geometry.Valid, Good;
      FlushCache(Kind.Fat);
      FlushCache(Kind.Bitmap);
      FlushCache(Kind.Data);
      assert forall x :: x in Unsaved() ==>
          g.KindOf(x.sector).Fat? || g.KindOf(x.sector).Bitmap? || g.KindOf(x.sector).Data?;
    }

    method FlushSector(k: Kind, s: nat)
      requires Valid() && s < |flat| && g.KindOf(s) == k
      modifies Footprint() - {this}
      ensures Valid()
      ensures Unsaved() <= old(Unsaved()) - SpotsOf(g, s)
      ensures dev.log == old(dev.log) || dev.log == old(dev.log) + [s]
    {
      hide Core, HandOk, Behind;
      Cache(k).FlushSector(dev, s, flat);
      TookOverGood(g, k, old(dev.blocks), dev.blocks, flat);
      BehindSettled(g, flat, old(dev.blocks), dev.blocks);
      OthersKeep(k, old(dev.blocks), flat);
    }
  }

  lemma ViewIs(vol: Volume)
    requires vol.g.Valid() && Good(vol.flat, vol.g)
    ensures vol.View() == Abs(vol.flat, vol.g)
  {
  }
}
