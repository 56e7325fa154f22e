/** A flush that does not keep the order Data, Bitmap, FAT, Dir. */
module FlushOrder {
  import opened Bytes
  import opened Disk
  import opened NewVolume
  import opened Results
  import opened SlotCache
  import opened Spots
  import opened Touched
  import opened Volume

  /** Two sectors of the FAT and five of data clusters. */
  function Seven(): (list: seq<TouchedSector>)
    ensures |list| == DEFAULT_TOUCHED_SECTORS + 1
  {
    [TouchedSector(FatSector, 24), TouchedSector(FatSector, 25), TouchedSector(DataSector, 34),
     TouchedSector(DataSector, 35), TouchedSector(DataSector, 36), TouchedSector(DataSector, 37),
     TouchedSector(DataSector, 38)]
  }

  lemma SevenFacts()
    ensures Numbered(Seven())
    ensures forall x :: x in Seven() ==>
          && x.sector < 64 && SmallVolume().KindOf(x.sector) == CacheOf(x.kind)
          && x.kind != BitmapSector
    ensures forall x :: x in Seven() ==> BlankDisk()[x.sector][0] == 0
  {
  }

  /** Sets the first byte of a sector. */
  method Touch(vol: Volume, touched: FileDirty, x: TouchedSector)
    requires vol.Valid() && touched.Valid(vol.g) && touched !in vol.Footprint()
    requires x.sector < |vol.flat| && vol.g.KindOf(x.sector) == CacheOf(x.kind) && CacheOf(x.kind) != Kind.Bitmap
    modifies vol.Footprint(), touched
    ensures vol.Valid() && touched.Valid(vol.g)
    ensures |vol.flat[x.sector]| > 0 && vol.flat[x.sector][0] == 1
            && vol.flat == old(vol.flat)[x.sector := vol.flat[x.sector]]
    ensures TookOver(vol.g, CacheOf(x.kind), old(vol.dev.blocks), vol.dev.blocks, old(vol.flat))
    ensures touched.sectors == if x.sector in SectorsOf(old(touched.sectors)) || |old(touched.sectors)| == touched.capacity
                               then old(touched.sectors) else old(touched.sectors) + [x]
    ensures touched.overflowed
            == (old(touched.overflowed) || (x.sector !in SectorsOf(old(touched.sectors))
                && |old(touched.sectors)| == touched.capacity))
  {
    hide Volume.Coherent, Volume.Unsaved, Geometry.KindOf, FileDirty.Valid, SectorsOf;
    touched.Insert(x.kind, x.sector, Span(x.sector, 0, 1), vol.g);
    vol.Patch(CacheOf(x.kind), x.sector, 0, [1]);
  }

  /** Where the logical disk and the device stand after `i` of the seven: untouched sectors are as they were;
      the second FAT sector is behind from then on, and the last data sector at the end. */
  ghost predicate Stands(flat: seq<Block>, dev: seq<Block>, i: nat) {
    && |flat| == |dev| == 64 && i <= 7
    && (forall s: nat :: s < 64 && s !in Numbers(Seven()[..i]) ==> flat[s] == dev[s] == BlankDisk()[s])
    && (i >= 2 ==> dev[25] == BlankDisk()[25] && flat[25] != BlankDisk()[25])
    && (i == 7 ==> dev[38] != flat[38])
  }

  lemma OneMore(i: nat)
    requires i < 7
    ensures Numbers(Seven()[..i + 1]) == Numbers(Seven()[..i]) + [Seven()[i].sector]
    ensures Seven()[i].sector !in Numbers(Seven()[..i]) && Seven()[i].sector !in SectorsOf(Seven()[..i])
    ensures Seven()[..i + 1] == Seven()[..i] + [Seven()[i]]
  {
    var x := Seven()[i];
    SevenFacts();
    assert Seven()[..i + 1][..i] == Seven()[..i];
  }

  lemma StandsOn(flat: seq<Block>, dev: seq<Block>, flat': seq<Block>, dev': seq<Block>, i: nat)
    requires i < 7 && Seven()[i].sector < 64 && |flat'| == 64 && Stands(flat, dev, i)
    requires flat' == flat[Seven()[i].sector := flat'[Seven()[i].sector]]
    requires |flat'[Seven()[i].sector]| > 0 && flat'[Seven()[i].sector][0] == 1
    requires TookOver(SmallVolume(), CacheOf(Seven()[i].kind), dev, dev', flat)
    ensures Stands(flat', dev', i + 1)
  {
    hide BlankDisk, Numbers;
    SevenFacts();
    OneMore(i);
    var x := Seven()[i];
    assert x in Seven();
    assert flat'[x.sector] != BlankDisk()[x.sector];
    assert dev'[x.sector] == BlankDisk()[x.sector];
  }

  /** What is listed after `i` of the seven. */
  ghost predicate Listed(sectors: seq<TouchedSector>, overflowed: bool, i: nat) {
    i <= 7 && sectors == Seven()[..if i < 7 then i else 6] && (overflowed <==> i == 7)
  }

  lemma ListedNext(sectors: seq<TouchedSector>, overflowed: bool, i: nat)
    requires i < 7 && Listed(sectors, overflowed, i)
    ensures var x, full := Seven()[i], |sectors| == DEFAULT_TOUCHED_SECTORS;
            && x.sector !in SectorsOf(sectors)
            && Listed(if full then sectors else sectors + [x], overflowed || full, i + 1)
  {
    hide Seven, SectorsOf;
    OneMore(i);
  }

  method TouchNext(vol: Volume, touched: FileDirty, i: nat)
    requires vol.Valid() && touched.Valid(vol.g) && touched !in vol.Footprint() && vol.g == SmallVolume()
    requires i < 7 && Stands(vol.flat, vol.dev.blocks, i)
    requires Listed(touched.sectors, touched.overflowed, i) && touched.capacity == DEFAULT_TOUCHED_SECTORS
    modifies vol.Footprint(), touched
    ensures vol.Valid() && touched.Valid(vol.g) && Stands(vol.flat, vol.dev.blocks, i + 1)
    ensures Listed(touched.sectors, touched.overflowed, i + 1)
  {
    hide Volume.Coherent, Volume.Unsaved, FileDirty.Valid, BlankDisk, Seven, SectorsOf, Good, Geometry.KindOf,
         TookOver, SmallVolume, Numbers, Listed, Geometry.Valid, Numbered;
    SevenFacts();
    var x := Seven()[i];
    assert x in Seven();
    ListedNext(touched.sectors, touched.overflowed, i);
    Touch(vol, touched, x);
    StandsOn(old(vol.flat), old(vol.dev.blocks), vol.flat, vol.dev.blocks, i);
  }

  /** Seven sectors are touched, one more than the list holds; the flush then writes the FAT before data. */
  method SevenTouched() returns (vol: Volume, ghost was: seq<nat>, ghost saved: seq<nat>)
    ensures fresh(vol) && vol.g == SmallVolume() && vol.dev.log == was + saved
    ensures 25 in saved && 38 in saved && !InSaveOrder(SmallVolume(), {}, saved)
  {
    hide Volume.Coherent, Volume.Unsaved, Volume.Dirty, FileDirty.Valid, BlankDisk, Seven, SectorsOf, InSaveOrder,
         Stands, Good, Geometry.KindOf, Listed, SmallVolume, Geometry.Valid;
    var dev := new Device(BlankDisk());
    vol := new Volume(SmallVolume(), dev, 4);
    var touched := new FileDirty(DEFAULT_TOUCHED_SECTORS, SmallVolume());
    StandsFirst();
    for i := 0 to 7
      invariant vol.Valid() && touched.Valid(vol.g) && fresh(vol.Footprint()) && fresh(touched)
                && touched !in vol.Footprint()
      invariant Stands(vol.flat, vol.dev.blocks, i) && vol.g == SmallVolume()
      invariant Listed(touched.sectors, touched.overflowed, i) && touched.capacity == DEFAULT_TOUCHED_SECTORS
    {
      TouchNext(vol, touched, i);
    }
    was, saved := vol.dev.log, AllDirty(vol);
    Lost(vol);
    ListedLast(touched.sectors, touched.overflowed);
    ghost var written := touched.Flush(vol);
  }

  /** What is dirty after all seven cannot be written out in order. */
  lemma Lost(vol: Volume)
    requires vol.Valid() && vol.g == SmallVolume() && Stands(vol.flat, vol.dev.blocks, 7)
    ensures 25 in AllDirty(vol) && 38 in AllDirty(vol) && !InSaveOrder(SmallVolume(), {}, AllDirty(vol))
  {
    hide Volume.Coherent, Volume.Dirty, BlankDisk, InSaveOrder, Stands, Good, Geometry.KindOf, SmallVolume,
         Geometry.Valid;
    StandsLast(vol.flat, vol.dev.blocks);
    vol.BehindDirty(25);
    vol.BehindDirty(38);
    OverflowOrder(vol, {});
  }

  lemma StandsFirst()
    ensures Stands(BlankDisk(), BlankDisk(), 0) && Listed([], false, 0)
  {
    hide BlankDisk;
  }

  lemma StandsLast(flat: seq<Block>, dev: seq<Block>)
    requires Stands(flat, dev, 7)
    ensures |flat| == |dev| == 64 && dev[25] != flat[25] && dev[38] != flat[38]
    ensures SmallVolume().KindOf(25) == Kind.Fat && SmallVolume().KindOf(38) == Kind.Data
  {
    hide BlankDisk;
  }

  lemma ListedLast(sectors: seq<TouchedSector>, overflowed: bool)
    requires Listed(sectors, overflowed, 7)
    ensures overflowed
  {
  }
}
