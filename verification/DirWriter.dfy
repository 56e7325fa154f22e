/** Writing entry sets: the running checksum of `DirSetWriter`, and marking entries unused
    (src/directory_entry.rs:730-830, src/file_system.rs:784-810). */
module DirWriter {
  import opened Allocator
  import opened Bytes
  import opened Chains
  import opened DirEntry
  import opened DirPlace
  import opened Disk
  import opened EntrySet
  import opened File
  import opened FileData
  import opened Names
  import opened Results
  import opened Spots
  import opened Touched
  import opened Volume

  /** The clusters `dir` can be written to as a directory. */
  ghost predicate Writable(vol: Volume, touched: FileDirty, dir: seq<nat>)
    reads vol, vol.Footprint(), touched
  {
    vol.Valid() && touched.Valid(vol.g) && AllStore(vol.g, dir) && Distinct(dir)
  }

  ghost function EntriesOf(vol: Volume, dir: seq<nat>): (es: seq<RawEntry>)
    requires vol.g.Valid() && Good(vol.flat, vol.g) && AllStore(vol.g, dir)
    reads vol
    ensures |es| == Capacity(vol.g, dir)
  {
    Entries(vol.flat, vol.g, dir)
  }

  /** Overwrites bytes of the entry at a location. */
  method PutBytes(vol: Volume, touched: FileDirty, loc: Location, o: nat, x: seq<byte>, ghost dir: seq<nat>,
                  ghost k: nat)
    requires Writable(vol, touched, dir) && k < Capacity(vol.g, dir) && loc == PlaceOf(vol.g, dir, k) && o < 32
    requires o + |x| <= 32
    modifies vol.Footprint(), touched
    ensures Writable(vol, touched, dir) && touched.isDirEntryDirty == old(touched.isDirEntryDirty)
    ensures EntriesOf(vol, dir) == old(EntriesOf(vol, dir))[k := Splice(old(EntriesOf(vol, dir))[k], o, x)]
    ensures OnlyData(old(vol.View()), vol.View(), dir)
    ensures old(touched.inserted) <= touched.inserted
    ensures vol.Unsaved() <= old(vol.Unsaved()) + touched.inserted
  {
    hide Volume.Coherent, Volume.Unsaved, Geometry.Valid, Geometry.KindOf, FileDirty.Valid, AllStore, Distinct, Abs,
         PlaceOf, Capacity, Entries, OnlyData;
    EntryPatched(vol.flat, vol.g, dir, k, o, x);
    vol.Patch(Kind.Data, loc.sector, 32 * loc.offset + o, x);
    touched.Insert(DirSector, loc.sector, Span(loc.sector, 32 * loc.offset + o, |x|), vol.g);
  }

  // ---- going from entry to entry in a cluster ------------------------------------------------

  /** `next_dir_entry_location`. */
  function NextLocation(g: Geometry, loc: Location): Location
    requires g.Valid()
  {
    if loc.offset + 1 == PerSector(g) then Location(loc.sector + 1, 0) else Location(loc.sector, loc.offset + 1)
  }

  /** Within a cluster the next location is that of the next entry. */
  lemma NextPlace(g: Geometry, dir: seq<nat>, k: nat)
    requires g.Valid() && AllStore(g, dir) && k + 1 < Capacity(g, dir) && ClusterNo(g, k + 1) == ClusterNo(g, k)
    ensures PlaceOf(g, dir, k + 1) == NextLocation(g, PlaceOf(g, dir, k))
  {
    hide PerSector, PerCluster, Geometry.Valid, ClusterNo, SectorNo, EntryNo, Capacity;
    NextCoordinates(g, k);
  }

  /** Entries `k` to `k + n - 1` are in the directory and in one cluster. */
  ghost predicate InOneCluster(g: Geometry, dir: seq<nat>, k: nat, n: nat)
    requires g.Valid()
  {
    k + n <= Capacity(g, dir) && forall i :: k <= i < k + n ==> ClusterNo(g, i) == ClusterNo(g, k)
  }

  // ---- the writer ------------------------------------------------------------------------------

  class DirSetWriter {
    const g: Geometry
    const start: Location
    var current: Location
    var checksum: u16
    ghost const dir: seq<nat>
    ghost const first: nat      // the index of the first entry of the set
    ghost var entries: seq<RawEntry>   // what has been added so far

    /** The checksum is that of the entries added, and the next one goes behind them. */
    ghost predicate Valid()
      reads this
    {
      && g.Valid() && AllStore(g, dir) && first + |entries| <= Capacity(g, dir)
      && first < Capacity(g, dir) && start == PlaceOf(g, dir, first)
      && checksum == Checksum(Flat(entries))
      && (first + |entries| < Capacity(g, dir) && ClusterNo(g, first + |entries|) == ClusterNo(g, first) ==>
            current == PlaceOf(g, dir, first + |entries|))
    }

    constructor (g: Geometry, location: Location, ghost dir: seq<nat>, ghost first: nat)
      requires g.Valid() && AllStore(g, dir) && first < Capacity(g, dir) && location == PlaceOf(g, dir, first)
      ensures Valid() && this.g == g && this.dir == dir && this.first == first && entries == []
    {
      this.g := g;
      this.dir := dir;
      this.first := first;
      start := location;
      current := location;
      checksum := 0;
      entries := [];
    }

    /** `calc_checksum`, a byte at a time. */
    method CalcChecksum(raw: RawEntry, isFileDir: bool)
      requires checksum == Checksum(Flat(entries)) && (isFileDir <==> entries == [])
      modifies this`checksum
      ensures checksum == Checksum(Flat(entries + [raw]))
    {
      hide Checksum, RotateAdd, Flat;
      ghost var before := Flat(entries);
      assert before + raw[..0] == before;
      for i := 0 to 32
        invariant checksum == Checksum(before + raw[..i])
      {
        assert before + raw[..i + 1] == before + raw[..i] + [raw[i]];
        NextSum(before + raw[..i], raw[i]);
        if !(isFileDir && (i == 2 || i == 3)) {
          checksum := RotateAdd(checksum, raw[i]);
        }
      }
      assert raw[..32] == raw;
      FlatNext(entries, raw);
    }

    /** Moving on to the next location and counting the entry into the checksum. */
    method Advance(raw: RawEntry, isFileDir: bool)
      requires Valid() && (isFileDir <==> entries == []) && InOneCluster(g, dir, first, |entries| + 1)
      modifies this
      ensures Valid() && entries == old(entries) + [raw]
    {
      hide PlaceOf, ClusterNo, Capacity, Geometry.Valid, AllStore, Checksum;
      ghost var k := first + |entries|;
      if k + 1 < Capacity(g, dir) && ClusterNo(g, k + 1) == ClusterNo(g, first) {
        NextPlace(g, dir, k);
      }
      current := NextLocation(g, current);
      CalcChecksum(raw, isFileDir);
      entries := entries + [raw];
    }

    /** `add`: stores the entry and counts it. */
    method Add(vol: Volume, touched: FileDirty, raw: RawEntry, isFileDir: bool)
      requires Valid() && vol.g == g && Writable(vol, touched, dir) && this !in vol.Footprint()
      requires (isFileDir <==> entries == []) && InOneCluster(g, dir, first, |entries| + 1)
      modifies this, vol.Footprint(), touched
      ensures Valid() && entries == old(entries) + [raw]
      ensures Writable(vol, touched, dir) && touched.isDirEntryDirty == old(touched.isDirEntryDirty)
      ensures EntriesOf(vol, dir) == old(EntriesOf(vol, dir))[first + |old(entries)| := raw]
      ensures OnlyData(old(vol.View()), vol.View(), dir)
      ensures old(touched.inserted) <= touched.inserted
      ensures vol.Unsaved() <= old(vol.Unsaved()) + touched.inserted
    {
      hide Volume.Coherent, Volume.Unsaved, Volume.View, Geometry.Valid, FileDirty.Valid, AllStore, Distinct, PlaceOf,
           Capacity, Entries, OnlyData, ClusterNo, Good, Checksum;
      ghost var k := first + |entries|;
      assert ClusterNo(g, k) == ClusterNo(g, first);
      PutBytes(vol, touched, current, 0, raw, dir, k);
      SpliceWhole(old(EntriesOf(vol, dir))[k], raw);
      Advance(raw, isFileDir);
    }

    /** `add_no_write`: only counts an entry that is stored already. */
    method AddNoWrite(raw: RawEntry, isFileDir: bool)
      requires Valid() && (isFileDir <==> entries == []) && InOneCluster(g, dir, first, |entries| + 1)
      modifies this
      ensures Valid() && entries == old(entries) + [raw]
    {
      Advance(raw, isFileDir);
    }

    /** `finish`: stores the first entry with the checksum in it. */
    method Finish(vol: Volume, touched: FileDirty, fileDir: RawEntry)
      requires Valid() && vol.g == g && Writable(vol, touched, dir)
      modifies vol.Footprint(), touched
      ensures Writable(vol, touched, dir) && touched.isDirEntryDirty == old(touched.isDirEntryDirty)
      ensures EntriesOf(vol, dir) == old(EntriesOf(vol, dir))[first := WithChecksum(fileDir, Checksum(Flat(old(entries))))]
      ensures OnlyData(old(vol.View()), vol.View(), dir)
      ensures old(touched.inserted) <= touched.inserted
      ensures vol.Unsaved() <= old(vol.Unsaved()) + touched.inserted
    {
      hide Volume.Coherent, Volume.Unsaved, Volume.View, Geometry.Valid, FileDirty.Valid, AllStore, Distinct, PlaceOf,
           Capacity, Entries, OnlyData, ClusterNo, Good, Checksum;
      ghost var sum := checksum;
      var raw := WithChecksum(fileDir, checksum);
      PutBytes(vol, touched, start, 0, raw, dir, first);
      SpliceWhole(old(EntriesOf(vol, dir))[first], raw);
    }
  }

  lemma FlatNext(es: seq<RawEntry>, e: RawEntry)
    ensures Flat(es + [e]) == Flat(es) + e
  {
    assert (es + [e])[..|es|] == es;
  }

  lemma SpliceWhole(e: RawEntry, x: RawEntry)
    ensures Splice(e, 0, x) == x
  {
  }
}
