/** Reading a directory entry by entry (`DirectoryEntryChain`, src/directory_entry.rs:449-700). */
module DirReader {
  import opened Allocator
  import opened Bytes
  import opened Chains
  import opened Cursor
  import opened DirEntry
  import opened DirPlace
  import opened DirWriter
  import opened Disk
  import opened FatAccess
  import opened File
  import opened FileData
  import opened Results
  import opened Volume

  /** In which cluster, sector of the cluster and entry of the sector entry `k` is. */
  ghost predicate IsAt(g: Geometry, dir: seq<nat>, k: nat, cluster: nat, sector: nat, offset: nat)
    requires g.Valid()
  {
    k < Capacity(g, dir) && ClusterNo(g, k) < |dir| && cluster == dir[ClusterNo(g, k)] && sector == SectorNo(g, k)
        && offset == EntryNo(g, k)
  }

  /** The sector held in the buffer is right from entry `k` on, as far as the sector of entry `p`
      goes. What was written behind the reader's back before `k` does not matter. */
  ghost predicate Buffered(g: Geometry, es: seq<RawEntry>, p: nat, k: nat, buf: Block)
    requires g.Valid()
  {
    |buf| == g.size &&
    forall j :: k <= j < |es| && ClusterNo(g, j) == ClusterNo(g, p) && SectorNo(g, j) == SectorNo(g, p) ==>
      32 * EntryNo(g, j) + 32 <= g.size && es[j] == buf[32 * EntryNo(g, j)..32 * EntryNo(g, j) + 32]
  }

  /** What was written before entry `k` does not disturb the reader. */
  lemma StandsStill(g: Geometry, dir: seq<nat>, es: seq<RawEntry>, es': seq<RawEntry>, k: nat,
                    cluster: nat, sector: nat, offset: nat, fetch: bool, buf: Block)
    requires g.Valid() && Stands(g, dir, es, k, cluster, sector, offset, fetch, buf)
    requires |es'| == |es| && forall j :: k <= j < |es| ==> es'[j] == es[j]
    ensures Stands(g, dir, es', k, cluster, sector, offset, fetch, buf)
  {
  }

  /** Where the reader stands before entry `k`: at it with nothing fetched, or just behind the one
      before it. */
  ghost predicate Stands(g: Geometry, dir: seq<nat>, es: seq<RawEntry>, k: nat,
                         cluster: nat, sector: nat, offset: nat, fetch: bool, buf: Block)
    requires g.Valid()
  {
    if fetch then IsAt(g, dir, k, cluster, sector, offset)
    else k > 0 && offset > 0 && IsAt(g, dir, k - 1, cluster, sector, offset - 1) && Buffered(g, es, k - 1, k, buf)
  }

  class DirectoryEntryChain {
    const vol: Volume
    var cluster: nat
    var clusterOffset: nat
    var dirEntryOffset: nat
    var buf: Block
    var fetchRequired: bool
    var cursor: nat
    const numEntries: Option<nat>
    ghost const dir: seq<nat>
    ghost const first: nat
    ghost var at: nat        // the index of the next entry

    /** The reader is about to return entry `at`. */
    ghost predicate Valid()
      reads this, vol, vol.Footprint()
    {
      && vol.Valid() && IsDirectory(vol.View().fat, vol.g, dir)
      && first <= at <= Capacity(vol.g, dir) && cursor == at - first
      && Stands(vol.g, dir, EntriesOf(vol, dir), at, cluster, clusterOffset, dirEntryOffset, fetchRequired, buf)
    }

    /** `new`: from the start of a directory to its end. */
    constructor (vol: Volume, cluster: nat, ghost dir: seq<nat>)
      requires vol.Valid() && IsDirectory(vol.View().fat, vol.g, dir) && cluster == dir[0]
      ensures Valid() && this.vol == vol && this.dir == dir && at == first == 0 && numEntries == None
    {
      this.vol := vol;
      this.cluster := cluster;
      clusterOffset := 0;
      dirEntryOffset := 0;
      buf := [];
      fetchRequired := true;
      cursor := 0;
      numEntries := None;
      this.dir := dir;
      first := 0;
      at := 0;
      StartsAt(vol.g, dir);
    }

    /** `new_from_file_details`: the entries of one set. */
    constructor FromFileDetails(vol: Volume, location: Location, secondaryCount: nat, ghost dir: seq<nat>,
                                ghost first: nat)
      requires vol.Valid() && IsDirectory(vol.View().fat, vol.g, dir)
      requires first < Capacity(vol.g, dir) && location == PlaceOf(vol.g, dir, first)
      ensures Valid() && this.vol == vol && this.dir == dir && at == this.first == first && cursor == 0
      ensures numEntries == Some(secondaryCount + 1)
    {
      FoundAt(vol.g, dir, first);
      this.vol := vol;
      cluster := FIRST_CLUSTER_ID + (location.sector - vol.g.heapOffset) / vol.g.sectorsPerCluster;
      clusterOffset := (location.sector - vol.g.heapOffset) % vol.g.sectorsPerCluster;
      dirEntryOffset := location.offset;
      buf := [];
      fetchRequired := true;
      cursor := 0;
      numEntries := Some(secondaryCount + 1);
      this.dir := dir;
      this.first := first;
      at := first;
    }

    /** Moves on to the next sector or the next cluster if the last entry of one has been returned. */
    method Reach() returns (more: bool)
      requires Valid()
      modifies this`cluster, this`clusterOffset, this`dirEntryOffset, this`fetchRequired, vol.Footprint() - {vol}
      ensures vol.Valid() && IsDirectory(vol.View().fat, vol.g, dir) && vol.Unsaved() <= old(vol.Unsaved())
      ensures more <==> at < Capacity(vol.g, dir)
      ensures more ==> IsAt(vol.g, dir, at, cluster, clusterOffset, dirEntryOffset)
                       && (fetchRequired || Buffered(vol.g, EntriesOf(vol, dir), at, at, buf))
    {
      hide Volume.Coherent, Volume.Unsaved, Volume.View, Geometry.Valid, Stands, IsDirectory, Entries, PlaceOf, Good,
           Capacity, IsAt, Buffered, PerSector, ClusterNo, NextOf, AllStore;
      DirectoryStores(vol.View().fat, vol.g, dir);
      Standing(vol.g, dir, EntriesOf(vol, dir), at, cluster, clusterOffset, dirEntryOffset, fetchRequired, buf);
      more := true;
      if dirEntryOffset >= PerSector(vol.g) {
        clusterOffset := clusterOffset + 1;
        dirEntryOffset := 0;
        fetchRequired := true;
      }
      if clusterOffset >= vol.g.sectorsPerCluster {
        LinkAfter(vol.View().fat, vol.g, dir, at);
        HeapIds(vol.g);
        var next := NextCluster(vol, cluster);
        if next.None? {
          return false;
        }
        cluster := next.value;
        clusterOffset := 0;
        dirEntryOffset := 0;
        fetchRequired := true;
      }
      InsideCapacity(vol.g, dir, at, cluster, clusterOffset, dirEntryOffset);
    }

    /** Fetches the sector if it is not in the buffer. */
    method Fetch()
      requires vol.Valid() && AllStore(vol.g, dir)
      requires IsAt(vol.g, dir, at, cluster, clusterOffset, dirEntryOffset)
      requires fetchRequired || Buffered(vol.g, EntriesOf(vol, dir), at, at, buf)
      modifies this`buf, this`fetchRequired, vol.Footprint() - {vol}
      ensures vol.Valid() && vol.Unsaved() <= old(vol.Unsaved())
      ensures !fetchRequired && Buffered(vol.g, EntriesOf(vol, dir), at, at, buf)
    {
      hide Volume.Coherent, Volume.Unsaved, Volume.View, Geometry.Valid, Entries, PlaceOf, Good, Capacity, IsAt,
           Buffered, PerSector, ClusterNo, AllStore, Geometry.KindOf;
      if fetchRequired {
        AtPlace(vol.g, dir, at, cluster, clusterOffset, dirEntryOffset);
        EntryRead(vol.flat, vol.g, dir, at);
        buf := vol.Read(Kind.Data, vol.g.HeapSector(cluster) + clusterOffset);
        Fetched(vol.flat, vol.g, dir, at, buf);
        fetchRequired := false;
      }
    }

    /** The entry at `at` and its location, or nothing after the last entry. */
    method Next() returns (r: Option<(RawEntry, Location)>)
      requires Valid()
      modifies this, vol.Footprint() - {vol}
      ensures vol.Valid() && vol.Unsaved() <= old(vol.Unsaved())
      ensures r.None? <==> numEntries == Some(old(cursor)) || old(at) == Capacity(vol.g, dir)
      ensures r.None? ==> at == old(at)
      ensures r.Some? ==>
                && Valid() && at == old(at) + 1 && cursor == old(cursor) + 1
                && r.value.0 == EntriesOf(vol, dir)[old(at)] && r.value.1 == PlaceOf(vol.g, dir, old(at))
    {
      hide Volume.Coherent, Volume.Unsaved, Volume.View, Geometry.Valid, IsDirectory, Entries, PlaceOf, Good,
           Capacity, IsAt, Buffered, PerSector, ClusterNo, AllStore, Stands, SectorNo, EntryNo;
      if numEntries == Some(cursor) {
        return None;
      }
      var more := Reach();
      if !more {
        return None;
      }
      DirectoryStores(vol.View().fat, vol.g, dir);
      Fetch();
      AtPlace(vol.g, dir, at, cluster, clusterOffset, dirEntryOffset);
      InBuffer(vol.g, dir, EntriesOf(vol, dir), at, cluster, clusterOffset, dirEntryOffset, buf);
      var entry: RawEntry := buf[32 * dirEntryOffset..32 * dirEntryOffset + 32];
      r := Some((entry, Location(vol.g.HeapSector(cluster) + clusterOffset, dirEntryOffset)));
      dirEntryOffset := dirEntryOffset + 1;
      at := at + 1;
      cursor := cursor + 1;
    }
  }

  lemma DirectoryStores(fat: seq<nat>, g: Geometry, dir: seq<nat>)
    requires g.Valid() && IsDirectory(fat, g, dir)
    ensures AllStore(g, dir) && Distinct(dir) && dir != []
  {
  }

  /** Before entry `k` the reader is at it, or has used up a sector or a cluster just before it. */
  lemma Standing(g: Geometry, dir: seq<nat>, es: seq<RawEntry>, k: nat, cluster: nat, sector: nat, offset: nat,
                 fetch: bool, buf: Block)
    requires g.Valid() && Stands(g, dir, es, k, cluster, sector, offset, fetch, buf) && k <= Capacity(g, dir) == |es|
    ensures sector < g.sectorsPerCluster
    ensures if fetch || offset < PerSector(g) then IsAt(g, dir, k, cluster, sector, offset) && offset < PerSector(g)
            else if sector + 1 < g.sectorsPerCluster then IsAt(g, dir, k, cluster, sector + 1, 0)
            else k > 0 && ClusterNo(g, k - 1) < |dir| && cluster == dir[ClusterNo(g, k - 1)]
                 && ClusterNo(g, k) == ClusterNo(g, k - 1) + 1 && SectorNo(g, k) == 0 && EntryNo(g, k) == 0
    ensures !fetch && offset < PerSector(g) ==> Buffered(g, es, k, k, buf)
  {
    hide PerSector, PerCluster, ClusterNo, SectorNo, EntryNo, Capacity;
    if !fetch {
      NextCoordinates(g, k - 1);
      IndexInDir(g, dir, k);
    }
  }

  /** At the end of a cluster the FAT says whether there are more entries. */
  lemma LinkAfter(fat: seq<nat>, g: Geometry, dir: seq<nat>, k: nat)
    requires g.Valid() && IsDirectory(fat, g, dir) && |fat| == g.EndCluster() && 0 < k <= Capacity(g, dir)
    requires ClusterNo(g, k - 1) < |dir|
    requires ClusterNo(g, k) == ClusterNo(g, k - 1) + 1 && SectorNo(g, k) == 0 && EntryNo(g, k) == 0
    ensures var c := dir[ClusterNo(g, k - 1)];
            && FIRST_CLUSTER_ID <= c < g.EndCluster()
            && (NextOf(fat[c]).None? <==> k == Capacity(g, dir))
            && (NextOf(fat[c]).Some? ==> IsAt(g, dir, k, NextOf(fat[c]).value, 0, 0))
  {
    hide PerSector, PerCluster, ClusterNo, SectorNo, EntryNo, Capacity;
    IndexInDir(g, dir, k);
    LinkOf(fat, g, dir, ClusterNo(g, k - 1));
  }

  lemma LinkOf(fat: seq<nat>, g: Geometry, dir: seq<nat>, q: nat)
    requires g.Valid() && IsDirectory(fat, g, dir) && q < |dir|
    ensures FIRST_CLUSTER_ID <= dir[q] < |fat|
    ensures NextOf(fat[dir[q]]) == if q + 1 < |dir| then Some(dir[q + 1]) else None
  {
  }

  lemma AtPlace(g: Geometry, dir: seq<nat>, k: nat, cluster: nat, sector: nat, offset: nat)
    requires g.Valid() && AllStore(g, dir) && IsAt(g, dir, k, cluster, sector, offset)
    ensures FIRST_CLUSTER_ID <= cluster && offset < PerSector(g) && k < Capacity(g, dir)
    ensures PlaceOf(g, dir, k) == Location(g.HeapSector(cluster) + sector, offset)
    ensures g.KindOf(PlaceOf(g, dir, k).sector) == Kind.Data
  {
    hide PerSector, PerCluster, ClusterNo, SectorNo, EntryNo, Capacity, SectorOfCursor, InSectorOffset, InCluster;
    EntryCursor(g, dir, k, 0);
  }

  /** A sector just read holds all its entries. */
  lemma Fetched(d: seq<Block>, g: Geometry, dir: seq<nat>, k: nat, buf: Block)
    requires g.Valid() && Good(d, g) && AllStore(g, dir) && k < Capacity(g, dir)
    requires PlaceOf(g, dir, k).sector < |d| && buf == d[PlaceOf(g, dir, k).sector]
    ensures Buffered(g, Entries(d, g, dir), k, k, buf)
  {
    hide PerSector, PerCluster, Capacity, Entries, Geometry.Valid, ClusterNo, SectorNo, EntryNo;
    var es := Entries(d, g, dir);
    EntryRead(d, g, dir, k);
    forall j: nat | k <= j < |es| && ClusterNo(g, j) == ClusterNo(g, k) && SectorNo(g, j) == SectorNo(g, k)
      ensures 32 * EntryNo(g, j) + 32 <= g.size && es[j] == buf[32 * EntryNo(g, j)..32 * EntryNo(g, j) + 32]
    {
      EntryRead(d, g, dir, j);
    }
  }

  /** The entry the reader is at is in the buffer, and behind it the reader stands before the next. */
  lemma InBuffer(g: Geometry, dir: seq<nat>, es: seq<RawEntry>, k: nat, cluster: nat, sector: nat, offset: nat,
                 buf: Block)
    requires g.Valid() && IsAt(g, dir, k, cluster, sector, offset) && Buffered(g, es, k, k, buf)
    requires |es| == Capacity(g, dir)
    ensures |buf| == g.size && 32 * offset + 32 <= g.size && k < |es| && es[k] == buf[32 * offset..32 * offset + 32]
    ensures Stands(g, dir, es, k + 1, cluster, sector, offset + 1, false, buf)
  {
    hide PerSector, PerCluster, ClusterNo, SectorNo, EntryNo, Capacity;
  }

  lemma InsideCapacity(g: Geometry, dir: seq<nat>, k: nat, cluster: nat, sector: nat, offset: nat)
    requires g.Valid() && IsAt(g, dir, k, cluster, sector, offset)
    ensures k < Capacity(g, dir)
  {
  }

  lemma StartsAt(g: Geometry, dir: seq<nat>)
    requires g.Valid() && dir != []
    ensures IsAt(g, dir, 0, dir[0], 0, 0)
  {
    hide PerSector, PerCluster;
    AtCoordinates(g, 0, 0, 0, 0);
    IndexInDir(g, dir, 0);
  }

  /** From a location the cluster and the sector in it are found by division. */
  lemma FoundAt(g: Geometry, dir: seq<nat>, k: nat)
    requires g.Valid() && AllStore(g, dir) && k < Capacity(g, dir)
    ensures var p := PlaceOf(g, dir, k);
            && g.heapOffset <= p.sector && 0 < g.sectorsPerCluster
            && IsAt(g, dir, k, FIRST_CLUSTER_ID + (p.sector - g.heapOffset) / g.sectorsPerCluster,
                    (p.sector - g.heapOffset) % g.sectorsPerCluster, p.offset)
  {
    hide PerSector, PerCluster, ClusterNo, SectorNo, EntryNo, Capacity;
    IndexInDir(g, dir, k);
    var c := dir[ClusterNo(g, k)];
    assert c in dir;
    DivModUnique(PlaceOf(g, dir, k).sector - g.heapOffset, g.sectorsPerCluster, c - FIRST_CLUSTER_ID, SectorNo(g, k));
  }

  /** What the reader relies on, apart from the volume being in order. */
  ghost predicate Reading(chain: DirectoryEntryChain, fat: seq<nat>, es: seq<RawEntry>)
    reads chain
  {
    && chain.vol.g.Valid() && IsDirectory(fat, chain.vol.g, chain.dir)
    && chain.first <= chain.at <= Capacity(chain.vol.g, chain.dir) == |es| && chain.cursor == chain.at - chain.first
    && Stands(chain.vol.g, chain.dir, es, chain.at, chain.cluster, chain.clusterOffset, chain.dirEntryOffset,
        chain.fetchRequired, chain.buf)
  }

  lemma ReadingNow(chain: DirectoryEntryChain)
    requires chain.Valid()
    ensures Reading(chain, chain.vol.View().fat, EntriesOf(chain.vol, chain.dir))
  {
    hide Volume.Coherent, Volume.View, Geometry.Valid, Stands, IsDirectory, Entries, Capacity, AllStore;
  }

  /** The reader goes on undisturbed after entries it has passed have been rewritten. */
  lemma ReadOn(chain: DirectoryEntryChain, fat: seq<nat>, es: seq<RawEntry>)
    requires Reading(chain, fat, es) && chain.vol.Valid() && chain.vol.View().fat == fat
    requires AllStore(chain.vol.g, chain.dir)
    requires forall j :: chain.at <= j < |es| ==> EntriesOf(chain.vol, chain.dir)[j] == es[j]
    ensures chain.Valid()
  {
    hide Volume.Coherent, Volume.View, Geometry.Valid, Stands, IsDirectory, Entries, Capacity, AllStore, Good;
    StandsStill(chain.vol.g, chain.dir, es, EntriesOf(chain.vol, chain.dir), chain.at, chain.cluster,
                chain.clusterOffset, chain.dirEntryOffset, chain.fetchRequired, chain.buf);
  }
}
