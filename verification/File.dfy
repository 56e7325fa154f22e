/** An open file: its chain, its cursor, and reading, writing and seeking (src/file.rs). */
module File {
  import opened Allocator
  import opened Bytes
  import opened Chains
  import opened Contents
  import opened Cursor
  import opened Disk
  import opened FatAccess
  import opened FileData
  import opened FreeSearch
  import opened Results
  import opened Spots
  import opened Touched
  import opened Volume

  class File {
    const vol: Volume
    const alloc: Allocator
    const touched: FileDirty
    const canRead: bool
    const canWrite: bool

    var details: FileDetails
    var chain: StoredChain
    var current: nat
    var remaining: nat
    var cursor: nat

    ghost var cs: seq<nat>      // the clusters `chain` stands for

    ghost function Footprint(): set<object> { vol.Footprint() + {this, alloc, touched} }

    /** The machinery below the file is in order. */
    ghost predicate Wired()
      reads alloc, touched, vol, vol.Footprint()
    {
      alloc.vol == vol && alloc.Valid() && touched.Valid(vol.g)
    }

    /** The file's clusters are its own, and the bitmap's clusters nobody's. */
    ghost predicate HoldsClusters()
      requires vol.g.Valid() && Good(vol.flat, vol.g)
      reads this`chain, this`details, this`cs, vol
    {
      && Held(vol.View(), vol.g, chain, details.noFat, cs)
      && BitmapHeld(vol.View().alloc, vol.g)
    }

    /** And all it has written since its last flush belongs to its clusters. */
    ghost predicate Owns()
      requires vol.g.Valid() && Good(vol.flat, vol.g)
      reads this`chain, this`details, this`cs, vol, touched`inserted
    {
      HoldsClusters() && Own(vol.g, cs, touched.inserted)
    }

    /** `File::new`: append starts at the valid length, everything else at the beginning. */
    constructor (vol: Volume, alloc: Allocator, details: FileDetails, clusterId: nat, canRead: bool, canWrite: bool,
                 append: bool, chain: StoredChain, ghost cs: seq<nat>)
      requires alloc.vol == vol && alloc.Valid()
      ensures this.vol == vol && this.alloc == alloc && fresh(touched)
      ensures this.details == details && this.chain == chain && this.cs == cs && this.canRead == canRead
      ensures this.canWrite == canWrite
      ensures cursor == (if append then details.validDataLength else 0) && current == clusterId
      ensures remaining == if chain.Empty? then 0 else vol.g.ClusterLength() - cursor % vol.g.ClusterLength()
      ensures Wired() && touched.inserted == {} && !touched.isDirEntryDirty
    {
      var at := if append then details.validDataLength else 0;
      this.vol := vol;
      this.alloc := alloc;
      this.details := details;
      this.canRead := canRead;
      this.canWrite := canWrite;
      this.chain := chain;
      this.cs := cs;
      current := clusterId;
      cursor := at;
      LengthPositive(vol.g);
      DivModFacts(at, vol.g.ClusterLength());
      remaining := if chain.Empty? then 0 else vol.g.ClusterLength() - at % vol.g.ClusterLength();
      touched := new FileDirty(DEFAULT_TOUCHED_SECTORS, vol.g);
    }

    predicate ShouldConvert(run: Run)
      reads this
    {
      chain.Contiguous? && details.noFat && chain.first + chain.count != run.first
    }

    /** `convert_file_to_fat_chain_if_required`: clears NoFatChain and links the clusters held so
        far, all but the last. */
    method ConvertToFatChain()
      requires Wired() && HoldsClusters() && details.noFat && chain.Contiguous?
      modifies this`details, touched, vol.Footprint()
      ensures Wired() && details == old(details).(noFat := false) && touched.isDirEntryDirty
      ensures vol.View() == old(vol.View()).(fat := vol.View().fat)
      ensures LinkedButLast(vol.View().fat, cs)
      ensures forall c: nat :: c < |vol.View().fat| && c !in cs ==> vol.View().fat[c] == old(vol.View()).fat[c]
      ensures old(touched.inserted) <= touched.inserted && Adds(vol.g, cs, old(touched.inserted), touched.inserted)
      ensures vol.Unsaved() <= old(vol.Unsaved()) + touched.inserted
    {
      hide Volume.Coherent, Volume.View, Volume.Unsaved, Geometry.Valid, Good, Geometry.Stores, LinkedButLast, Adds,
           Own;
      ghost var was := touched.inserted;
      details := details.(noFat := false);
      touched.isDirEntryDirty := true;
      assert InHeap(cs, vol.g.EndCluster());
      assert cs[0] == chain.first && cs[chain.count - 1] == chain.first + chain.count - 1;
      LinkConsecutive(vol, touched, chain.first, chain.count - 1);
      ConvertedLinks(old(vol.View()).fat, vol.View().fat, chain.first, chain.count);
      RunMembers(chain.first, chain.count);
      RunMembers(chain.first, chain.count - 1);
      AddsNone(vol.g, cs, was);
      AddsTrans(vol.g, cs, RunSeq(chain.first, chain.count - 1), cs, was, was, touched.inserted);
    }

    /** Links a run behind the chain, whose last cluster is `prev`. */
    method JoinRun(prev: Option<nat>, run: Run)
      requires Wired() && InHeap(cs, vol.g.EndCluster()) && Distinct(cs) && prev == LastOf(cs)
      requires LinkedButLast(vol.View().fat, cs) && forall c :: c in cs ==> !InRun(run, c)
      requires run.count > 0 && FIRST_CLUSTER_ID <= run.first && run.first + run.count <= vol.g.EndCluster()
      modifies touched, vol.Footprint()
      ensures Wired() && touched.isDirEntryDirty == old(touched.isDirEntryDirty)
      ensures vol.View() == old(vol.View()).(fat := vol.View().fat)
      ensures var all := cs + RunSeq(run.first, run.count);
              && InHeap(all, |vol.View().fat|) && Distinct(all) && Linked(vol.View().fat, all)
              && forall c: nat :: c < |vol.View().fat| && c !in all ==> vol.View().fat[c] == old(vol.View()).fat[c]
      ensures old(touched.inserted) <= touched.inserted
      ensures Adds(vol.g, cs + RunSeq(run.first, run.count), old(touched.inserted), touched.inserted)
      ensures vol.Unsaved() <= old(vol.Unsaved()) + touched.inserted
    {
      hide Volume.Coherent, Volume.View, Volume.Unsaved, Geometry.Valid, Good, Linked, LinkedButLast, Distinct,
           Appended, FileDirty.Valid, Adds, RunSeq;
      ghost var fat, was, all := vol.View().fat, touched.inserted, cs + RunSeq(run.first, run.count);
      assert cs != [] ==> cs[|cs| - 1] in cs;
      AppendRun(vol, touched, prev, run.first, run.count);
      GrowLinked(fat, vol.View().fat, cs, run.first, run.count);
      AddsNone(vol.g, cs, was);
      AddsTrans(vol.g, cs, Links(prev) + RunSeq(run.first, run.count), all, was, was, touched.inserted);
    }

    /** The FAT part of `update_chain`: converts if the run is not adjacent, then links the run
        behind the chain unless the file keeps NoFatChain. */
    method LinkRun(run: Run)
      requires Wired() && HoldsClusters()
      requires run.count > 0 && FIRST_CLUSTER_ID <= run.first && run.first + run.count <= vol.g.BitEnd()
      requires forall c :: c in cs ==> !InRun(run, c)
      modifies this`details, touched, vol.Footprint()
      ensures Wired() && details == old(details).(noFat := details.noFat)
      ensures Rep(vol.View().fat, Grown(chain, !details.noFat, run), details.noFat, cs + RunSeq(run.first, run.count))
      ensures vol.View() == old(vol.View()).(fat := vol.View().fat)
      ensures forall c: nat :: c < |vol.View().fat| && c !in cs + RunSeq(run.first, run.count) ==>
                vol.View().fat[c] == old(vol.View()).fat[c]
      ensures !touched.isDirEntryDirty ==> details == old(details) && !old(touched.isDirEntryDirty)
      ensures old(touched.inserted) <= touched.inserted
      ensures Adds(vol.g, cs + RunSeq(run.first, run.count), old(touched.inserted), touched.inserted)
      ensures vol.Unsaved() <= old(vol.Unsaved()) + touched.inserted
    {
      hide Volume.Coherent, Volume.View, Volume.Unsaved, Geometry.Valid, Good, Geometry.Stores, Geometry.BitEnd,
           Linked, LinkedButLast, Distinct, Rep, Appended, FileDirty.Valid, Grown, Adds, RunSeq;
      BitEndFacts(vol.g);
      ghost var fat0, was, all := vol.View().fat, touched.inserted, cs + RunSeq(run.first, run.count);
      AddsNone(vol.g, cs, was);
      RepLinks(fat0, chain, details.noFat, cs);
      if ShouldConvert(run) {
        ConvertToFatChain();
      }
      if !details.noFat {
        TailIsLast(fat0, chain, old(details.noFat), cs);
        ghost var was1 := touched.inserted;
        JoinRun(TailOf(chain), run);
        GrownLinked(fat0, vol.View().fat, chain, old(details.noFat), cs, run);
        AddsTrans(vol.g, cs, all, all, was, was1, touched.inserted);
      } else {
        GrownContiguous(fat0, chain, cs, run);
        AddsTrans(vol.g, cs, cs, all, was, was, was);
      }
    }

    /** `update_chain`: appends an allocated run to the chain, whatever shape and flag it has. */
    method UpdateChain(run: Run)
      requires Wired() && HoldsClusters() && Own(vol.g, cs + RunSeq(run.first, run.count), touched.inserted)
      requires run.count > 0 && FIRST_CLUSTER_ID <= run.first && run.first + run.count <= vol.g.BitEnd()
      requires Clusters(run) <= vol.View().alloc && forall c :: c in cs ==> !InRun(run, c)
      requires forall c: nat :: InRun(run, c) ==> vol.g.Stores(c)
      modifies this`details, this`chain, this`cs, this`current, this`remaining, touched, vol.Footprint()
      ensures Wired() && Owns()
      ensures details == old(details).(noFat := details.noFat)
      ensures cs == old(cs) + RunSeq(run.first, run.count)
      ensures if old(cs) == [] then current == run.first && remaining == vol.g.ClusterLength()
              else current == old(current) && remaining == old(remaining)
      ensures vol.View() == old(vol.View()).(fat := vol.View().fat)
      ensures forall c: nat :: c < |vol.View().fat| && c !in cs ==> vol.View().fat[c] == old(vol.View()).fat[c]
      ensures !touched.isDirEntryDirty ==> details == old(details) && !old(touched.isDirEntryDirty)
      ensures old(touched.inserted) <= touched.inserted
      ensures vol.Unsaved() <= old(vol.Unsaved()) + touched.inserted
    {
      hide Volume.Coherent, Volume.View, Volume.Unsaved, Geometry.Valid, Good, Geometry.Stores, Geometry.BitEnd, Rep,
           FileDirty.Valid, Grown, Own, Adds;
      RepLinks(vol.View().fat, chain, details.noFat, cs);
      ghost var all, was := cs + RunSeq(run.first, run.count), touched.inserted;
      LinkRun(run);
      OwnAdds(vol.g, all, all, was, touched.inserted);
      if chain.Empty? {
        current := run.first;
        remaining := vol.g.ClusterLength();
      }
      RunMembers(run.first, run.count);
      chain := Grown(chain, !details.noFat, run);
      cs := cs + RunSeq(run.first, run.count);
    }

    /** One round of `allocate_clusters_for`: allocates a run and appends it to the chain. */
    method GrowOnce(n: nat) returns (r: Result<Run>)
      requires Wired() && Owns() && n > 0
      modifies this`details, this`chain, this`cs, this`current, this`remaining, alloc, touched, vol.Footprint()
      ensures Wired() && Owns()
      ensures details == old(details).(noFat := details.noFat)
      ensures Grew(old(vol.View()), vol.View(), old(cs), cs)
      ensures r.Err? ==> r == Err(DiskFull) && cs == old(cs) && FreeCount(old(vol.View()).alloc, vol.g) == 0
      ensures r.Ok? ==>
                && 0 < r.value.count <= n && |cs| == |old(cs)| + r.value.count
                && FreeCount(vol.View().alloc, vol.g) == FreeCount(old(vol.View()).alloc, vol.g) - r.value.count
      ensures if old(cs) == [] && r.Ok? then current == cs[0] && remaining == vol.g.ClusterLength()
              else current == old(current) && remaining == old(remaining)
      ensures !touched.isDirEntryDirty ==> details == old(details) && !old(touched.isDirEntryDirty)
      ensures old(touched.inserted) <= touched.inserted
      ensures vol.Unsaved() <= old(vol.Unsaved()) + touched.inserted
    {
      hide Volume.Coherent, Volume.View, Volume.Unsaved, Geometry.Valid, Good, Geometry.Stores, Geometry.BitEnd, Rep,
           Grown, BitmapHeld, Find, FreeCount, Free, NoneFree, Grew, FileDirty.Valid, Own, Adds, RunSeq;
      ghost var v0, cs0, was := vol.View(), cs, touched.inserted;
      NextIsValid(v0.fat, chain, details.noFat, cs);
      var policy := if chain.Empty? then LongestRun else FirstRun;
      r := alloc.Allocate(touched, SearchFrom(chain), n, policy);
      NoneFreeIsEmpty(v0.alloc, vol.g);
      if r.Ok? {
        var run := r.value;
        FreeRun(v0.alloc, vol.g, run);
        FreeBounds(v0.alloc, vol.g.BitEnd(), run);
        TakeFree(v0.alloc, vol.g, run);
        AddsNone(vol.g, cs, was);
        AddsTrans(vol.g, cs, RunSeq(run.first, run.count), cs + RunSeq(run.first, run.count), was, was, touched.inserted);
        OwnAdds(vol.g, cs, cs + RunSeq(run.first, run.count), was, touched.inserted);
        UpdateChain(run);
        GrewRun(v0, vol.View(), cs0, run);
      } else {
        GrewNone(v0, cs);
        AddsNone(vol.g, [], was);
        AddsTrans(vol.g, [], [], cs, was, was, touched.inserted);
        OwnAdds(vol.g, cs, cs, was, touched.inserted);
      }
    }

    /** `allocate_clusters_for`: run after run until the bytes fit. It succeeds exactly when enough
        clusters are free; otherwise the chain has swallowed every free cluster. */
    method AllocateClustersFor(bytes: nat) returns (r: Result<()>)
      requires Wired() && Owns() && bytes > 0
      modifies this`details, this`chain, this`cs, this`current, this`remaining, alloc, touched, vol.Footprint()
      ensures Wired() && Owns()
      ensures details == old(details).(noFat := details.noFat)
      ensures Grew(old(vol.View()), vol.View(), old(cs), cs)
      ensures r == if ClustersFor(bytes, vol.g) <= FreeCount(old(vol.View()).alloc, vol.g) then Ok(()) else Err(DiskFull)
      ensures |cs| == |old(cs)| + if r.Ok? then ClustersFor(bytes, vol.g) else FreeCount(old(vol.View()).alloc, vol.g)
      ensures if old(cs) == [] && cs != [] then current == cs[0] && remaining == vol.g.ClusterLength()
              else current == old(current) && remaining == old(remaining)
      ensures !touched.isDirEntryDirty ==> details == old(details) && !old(touched.isDirEntryDirty)
      ensures old(touched.inserted) <= touched.inserted
      ensures vol.Unsaved() <= old(vol.Unsaved()) + touched.inserted
    {
      hide Volume.Coherent, Volume.View, Volume.Unsaved, Geometry.Valid, Good, Held, BitmapHeld, FreeCount, Grew,
           FileDirty.Valid, ClustersFor;
      ghost var v0, cs0 := vol.View(), cs;
      NeedPositive(bytes, vol.g);
      var need := ClustersFor(bytes, vol.g);
      var left: nat := need;
      GrewNone(v0, cs);
      while left > 0
        invariant Wired() && Owns() && left <= need
        invariant details == old(details).(noFat := details.noFat)
        invariant Grew(v0, vol.View(), cs0, cs)
        invariant |cs| == |cs0| + (need - left)
        invariant FreeCount(vol.View().alloc, vol.g) == FreeCount(v0.alloc, vol.g) - (need - left)
        invariant if cs0 == [] && left < need then current == cs[0] && remaining == vol.g.ClusterLength()
                  else current == old(current) && remaining == old(remaining)
        invariant !touched.isDirEntryDirty ==> details == old(details) && !old(touched.isDirEntryDirty)
        invariant old(touched.inserted) <= touched.inserted
        invariant vol.Unsaved() <= old(vol.Unsaved()) + touched.inserted
      {
        ghost var v1, cs1 := vol.View(), cs;
        var run := GrowOnce(left);
        GrewTrans(v0, v1, vol.View(), cs0, cs1, cs);
        if run.Err? {
          return Err(DiskFull);
        }
        GrewFirst(v1, vol.View(), cs1, cs);
        left := left - run.value.count;
      }
      r := Ok(());
    }

    // ---- the cursor ----------------------------------------------------------------------

    /** The cursor invariant. */
    ghost predicate Placed()
      requires vol.g.Valid()
      reads this`cs, this`cursor, this`current, this`remaining
    {
      PlacedAt(vol.g, cs, cursor, current, remaining)
    }

    /** All bytes of the chain, up to the end of its last cluster. */
    ghost function RawBytes(): seq<byte>
      requires vol.g.Valid() && Good(vol.flat, vol.g) && Owns()
      reads this`chain, this`details, this`cs, vol, touched`inserted
    {
      LengthPositive(vol.g);
      StoresBacked(vol.flat, vol.g, cs);
      Raw(vol.View().data, cs, vol.g.ClusterLength())
    }

    /** `next_cursor_id`: the cluster after the current one, for every shape of chain; `q` is the
        index of the next cluster. */
    method NextCursorId(ghost q: nat) returns (r: Result<nat>)
      requires Wired() && Owns()
      requires if cs == [] then q == 0 else 1 <= q <= |cs| && current == cs[q - 1]
      modifies vol.Footprint() - {vol}
      ensures Wired() && Owns() && vol.Unsaved() <= old(vol.Unsaved())
      ensures r == if q < |cs| then Ok(cs[q]) else Err(EndOfFatChain)
    {
      hide Volume.Coherent, Volume.View, Volume.Unsaved, Geometry.Valid, Good, Geometry.Stores, FileDirty.Valid,
           BitmapHeld, Rep;
      HeapIds(vol.g);
      NextInChain(vol.View().fat, chain, details.noFat, cs, q);
      match chain
      case Empty =>
        r := Err(EndOfFatChain);
      case Contiguous(first, count) =>
        r := if first <= current + 1 < first + count then Ok(current + 1) else Err(EndOfFatChain);
      case Fat(_, _, _) =>
        var next := NextCluster(vol, current);
        r := if next.Some? then Ok(next.value) else Err(EndOfFatChain);
    }

    /** `next_cluster_if_required`: fails exactly when the cursor is at the end of the chain. */
    method NextClusterIfRequired() returns (r: Result<()>)
      requires Wired() && Owns() && Placed()
      modifies this`current, this`remaining, vol.Footprint() - {vol}
      ensures Wired() && Owns() && Placed() && vol.Unsaved() <= old(vol.Unsaved())
      ensures r == if cursor < |cs| * vol.g.ClusterLength() then Ok(()) else Err(EndOfFatChain)
      ensures r.Ok? ==> remaining > 0
      ensures r.Err? || old(remaining) > 0 ==> current == old(current) && remaining == old(remaining)
    {
      hide Volume.Coherent, Volume.View, Volume.Unsaved, Geometry.Valid, Good, Geometry.Stores, FileDirty.Valid,
           BitmapHeld, Held;
      LengthPositive(vol.g);
      AtInside(cs, vol.g.ClusterLength(), cursor, current, remaining);
      if remaining == 0 {
        var next := NextCursorId(cursor / vol.g.ClusterLength());
        if next.Err? {
          return Err(EndOfFatChain);
        }
        current := next.value;
        remaining := vol.g.ClusterLength();
      }
      r := Ok(());
    }

    // ---- writing ------------------------------------------------------------------------------

    /** `move_file_cursor`; `remaining` is an unsigned number. */
    method MoveCursor(n: nat) returns (r: Result<()>)
      modifies this`cursor, this`remaining
      ensures cursor == old(cursor) + n
      ensures r == if n <= old(remaining) then Ok(()) else Err(Underflow)
      ensures r.Ok? ==> remaining == old(remaining) - n
    {
      cursor := cursor + n;
      if remaining < n {
        return Err(Underflow);
      }
      remaining := remaining - n;
      r := Ok(());
    }

    /** Overwrites bytes of the sector that `get_current_sector_id` names, from the cursor's offset
        in the sector on. */
    method PatchCurrent(x: seq<byte>)
      requires Wired() && Owns() && current in cs && |x| <= vol.g.size - InSectorOffset(vol.g, cursor)
      modifies touched, vol.Footprint()
      ensures Wired() && Owns()
      ensures Patched(old(vol.View()), vol.View(), current, InClusterOffset(vol.g, cursor), x)
      ensures touched.isDirEntryDirty == old(touched.isDirEntryDirty)
      ensures old(touched.inserted) <= touched.inserted
      ensures vol.Unsaved() <= old(vol.Unsaved()) + touched.inserted
    {
      hide Volume.Coherent, Volume.Unsaved, Geometry.Valid, Geometry.KindOf, Geometry.Stores, BitmapHeld, Rep,
           FileDirty.Valid, Abs, InSectorOffset, InClusterOffset, Patched, Own;
      var s := SectorOfCursor(vol.g, current, cursor);
      SectorPatched(vol.flat, vol.g, current, cursor, x);
      PatchedKeeps(vol.View(), Abs(vol.flat[s := Splice(vol.flat[s], InSectorOffset(vol.g, cursor), x)], vol.g), current,
                   InClusterOffset(vol.g, cursor), x);
      vol.Patch(Kind.Data, s, InSectorOffset(vol.g, cursor), x);
      ghost var spots := Span(s, InSectorOffset(vol.g, cursor), |x|);
      DataSpotsOwn(vol.g, cs, current, s, touched.inserted);
      SpanOwn(vol.g, cs, s, InSectorOffset(vol.g, cursor), |x|, touched.inserted);
      OwnAdds(vol.g, cs, cs, touched.inserted, touched.inserted + spots);
      touched.Insert(DataSector, s, spots, vol.g);
    }

    /** Writes some bytes of the current sector and moves the cursor behind them. */
    method PutPartial(x: seq<byte>) returns (r: Result<()>)
      requires Wired() && Owns() && Placed() && cs != [] && 0 < |x| <= vol.g.size - InSectorOffset(vol.g, cursor)
      modifies this`cursor, this`remaining, touched, vol.Footprint()
      ensures Wired() && Owns()
      ensures touched.isDirEntryDirty == old(touched.isDirEntryDirty)
      ensures old(touched.inserted) <= touched.inserted
      ensures vol.Unsaved() <= old(vol.Unsaved()) + touched.inserted
      ensures r == if old(remaining) == 0 then Err(Underflow) else Ok(())
      ensures r.Ok? ==>
                && Placed() && cursor == old(cursor) + |x|
                && WroteIn(vol.g, old(vol.View()), vol.View(), cs, old(cursor), x)
                && (remaining == 0 <==> InClusterOffset(vol.g, cursor) == 0)
      ensures OnlyData(old(vol.View()), vol.View(), cs)
    {
      hide Volume.Coherent, Volume.Unsaved, Geometry.Valid, Good, BitmapHeld, Rep, FileDirty.Valid, Patched, WroteIn,
           InSectorOffset, InClusterOffset, PlacedAt, OnlyData, Abs;
      ghost var v, was, left := vol.View(), cursor, remaining;
      PlacedFacts(vol.g, cs, cursor, current, remaining);
      SectorRoom(vol.g, cursor);
      RepDistinct(v.fat, chain, details.noFat, cs);
      PatchCurrent(x);
      OnlyDataPatched(v, vol.View(), cs, current, InClusterOffset(vol.g, cursor), x);
      r := MoveCursor(|x|);
      if r.Ok? {
        Advanced(old(vol.flat), vol.g, vol.View(), cs, was, current, left, x);
      }
    }

    /** `write_partial_sector`: takes part of a sector's worth of bytes. From a cursor that has used
        up its cluster it writes to the wrong sector and then underflows. */
    method WritePartialSector(buf: seq<byte>) returns (len: nat, r: Result<()>)
      requires Wired() && Owns() && Placed() && cs != []
      modifies this`cursor, this`remaining, touched, vol.Footprint()
      ensures Wired() && Owns()
      ensures len == PartialLen(vol.g, old(cursor), |buf|)
      ensures touched.isDirEntryDirty == old(touched.isDirEntryDirty)
      ensures old(touched.inserted) <= touched.inserted
      ensures vol.Unsaved() <= old(vol.Unsaved()) + touched.inserted
      ensures r == if len > 0 && old(remaining) == 0 then Err(Underflow) else Ok(())
      ensures len == 0 ==> cursor == old(cursor) && remaining == old(remaining)
      ensures r.Ok? ==>
                && Placed() && cursor == old(cursor) + len
                && WroteIn(vol.g, old(vol.View()), vol.View(), cs, old(cursor), buf[..len])
                && (len > 0 ==> (remaining == 0 <==> InClusterOffset(vol.g, cursor) == 0))
      ensures OnlyData(old(vol.View()), vol.View(), cs)
    {
      hide Volume.Coherent, Volume.Unsaved, Geometry.Valid, Good, BitmapHeld, Rep, FileDirty.Valid, WroteIn,
           InSectorOffset, InClusterOffset, PlacedAt, PartialLen, Abs;
      PartialFits(vol.g, cursor, |buf|);
      len := PartialLen(vol.g, cursor, |buf|);
      if len == 0 {
        r := Ok(());
        PlacedFacts(vol.g, cs, cursor, current, remaining);
        WroteNothing(vol.flat, vol.g, cs, cursor);
      } else {
        r := PutPartial(buf[..len]);
      }
    }

    /** Writes one whole sector straight to the device, hopping to the next cluster if need be. */
    method WriteBlock(block: Block) returns (r: Result<()>)
      requires Wired() && Owns() && Placed() && |block| == vol.g.size && InSectorOffset(vol.g, cursor) == 0
      requires cursor + vol.g.size <= |cs| * vol.g.ClusterLength()
      modifies this`cursor, this`current, this`remaining, vol.Footprint()
      ensures Wired() && Owns() && Placed() && r == Ok(())
      ensures cursor == old(cursor) + vol.g.size && InSectorOffset(vol.g, cursor) == 0
      ensures WroteIn(vol.g, old(vol.View()), vol.View(), cs, old(cursor), block)
      ensures remaining == 0 <==> InClusterOffset(vol.g, cursor) == 0
      ensures vol.Unsaved() <= old(vol.Unsaved())
      ensures OnlyData(old(vol.View()), vol.View(), cs)
    {
      hide Volume.Coherent, Volume.Unsaved, Geometry.Valid, Good, BitmapHeld, Rep, FileDirty.Valid, Patched, WroteIn,
           InSectorOffset, InClusterOffset, PlacedAt, OnlyData, Abs, Own;
      SizePositive(vol.g);
      r := NextClusterIfRequired();
      ghost var v, was, left := vol.View(), cursor, remaining;
      PlacedFacts(vol.g, cs, cursor, current, remaining);
      SectorRoom(vol.g, cursor);
      RepDistinct(v.fat, chain, details.noFat, cs);
      PutBlock(block);
      OnlyDataPatched(v, vol.View(), cs, current, InClusterOffset(vol.g, cursor), block);
      r := MoveCursor(vol.g.size);
      Advanced(old(vol.flat), vol.g, vol.View(), cs, was, current, left, block);
      NextAligned(vol.g, was);
    }

    method PutBlock(block: Block)
      requires Wired() && Owns() && current in cs && |block| == vol.g.size && InSectorOffset(vol.g, cursor) == 0
      modifies vol.Footprint()
      ensures Wired() && Owns()
      ensures Patched(old(vol.View()), vol.View(), current, InClusterOffset(vol.g, cursor), block)
      ensures vol.Unsaved() <= old(vol.Unsaved())
    {
      hide Volume.Coherent, Volume.Unsaved, Geometry.Valid, Geometry.KindOf, Geometry.Stores, BitmapHeld, Rep,
           FileDirty.Valid, Abs, InSectorOffset, InClusterOffset, Patched;
      var s := SectorOfCursor(vol.g, current, cursor);
      SectorPatched(vol.flat, vol.g, current, cursor, block);
      assert Splice(vol.flat[s], 0, block) == block;
      PatchedKeeps(vol.View(), Abs(vol.flat[s := block], vol.g), current, InClusterOffset(vol.g, cursor), block);
      vol.WriteThrough(s, block);
    }

    /** The full sectors of a write. */
    method WriteBlocks(buf: seq<byte>) returns (k: nat)
      requires Wired() && Owns() && Placed() && InSectorOffset(vol.g, cursor) == 0
      requires cursor + |buf| <= |cs| * vol.g.ClusterLength()
      modifies this`cursor, this`current, this`remaining, vol.Footprint()
      ensures Wired() && Owns() && Placed()
      ensures k <= |buf| && |buf| - k < vol.g.size && (|buf| >= vol.g.size ==> k > 0)
      ensures cursor == old(cursor) + k && InSectorOffset(vol.g, cursor) == 0
      ensures WroteIn(vol.g, old(vol.View()), vol.View(), cs, old(cursor), buf[..k])
      ensures if k == 0 then remaining == old(remaining) else remaining == 0 <==> InClusterOffset(vol.g, cursor) == 0
      ensures vol.Unsaved() <= old(vol.Unsaved())
      ensures OnlyData(old(vol.View()), vol.View(), cs)
    {
      hide Volume.Coherent, Volume.Unsaved, Geometry.Valid, Good, BitmapHeld, Rep, FileDirty.Valid, WroteIn,
           InSectorOffset, InClusterOffset, PlacedAt, Abs, Own;
      SizePositive(vol.g);
      ghost var v := vol.View();
      k := 0;
      WroteNothing(vol.flat, vol.g, cs, cursor);
      while |buf| - k >= vol.g.size
        invariant Wired() && Owns() && Placed()
        invariant k <= |buf| && (k == 0 || k >= vol.g.size)
        invariant cursor == old(cursor) + k && InSectorOffset(vol.g, cursor) == 0
        invariant WroteIn(vol.g, v, vol.View(), cs, old(cursor), buf[..k])
        invariant if k == 0 then remaining == old(remaining) else remaining == 0 <==> InClusterOffset(vol.g, cursor) == 0
        invariant vol.Unsaved() <= old(vol.Unsaved())
        invariant OnlyData(v, vol.View(), cs)
      {
        ghost var v1 := vol.View();
        var block := buf[k..k + vol.g.size];
        var r := WriteBlock(block);
        WroteInTrans(vol.g, v, v1, vol.View(), cs, old(cursor), buf[..k], block);
        assert buf[..k] + block == buf[..k + vol.g.size];
        k := k + vol.g.size;
      }
    }

    /** The tail of a write: what is left after the full sectors. */
    method WriteTail(buf: seq<byte>) returns (r: Result<()>)
      requires Wired() && Owns() && Placed() && cs != [] && |buf| < vol.g.size && InSectorOffset(vol.g, cursor) == 0
      modifies this`cursor, this`remaining, touched, vol.Footprint()
      ensures Wired() && Owns()
      ensures touched.isDirEntryDirty == old(touched.isDirEntryDirty)
      ensures old(touched.inserted) <= touched.inserted
      ensures vol.Unsaved() <= old(vol.Unsaved()) + touched.inserted
      ensures r == if buf != [] && old(remaining) == 0 then Err(Underflow) else Ok(())
      ensures r.Ok? ==> Placed() && cursor == old(cursor) + |buf|
                        && WroteIn(vol.g, old(vol.View()), vol.View(), cs, old(cursor), buf)
      ensures OnlyData(old(vol.View()), vol.View(), cs)
    {
      hide Volume.Coherent, Volume.Unsaved, Geometry.Valid, Good, BitmapHeld, Rep, FileDirty.Valid, WroteIn,
           InSectorOffset, InClusterOffset, PlacedAt, Abs;
      assert PartialLen(vol.g, cursor, |buf|) == |buf|;
      assert buf[..|buf|] == buf;
      var len;
      len, r := WritePartialSector(buf);
    }

    /** The part of `write` after allocation: first partial sector, full sectors, last partial
        sector. It splices `buf` into the chain's bytes at the cursor, except for a bad tail, which
        underflows. */
    method WriteData(buf: seq<byte>) returns (r: Result<()>)
      requires Wired() && Owns() && Placed() && buf != [] && cursor + |buf| <= |cs| * vol.g.ClusterLength()
      modifies this`cursor, this`current, this`remaining, touched, vol.Footprint()
      ensures Wired() && Owns()
      ensures touched.isDirEntryDirty == old(touched.isDirEntryDirty)
      ensures old(touched.inserted) <= touched.inserted
      ensures vol.Unsaved() <= old(vol.Unsaved()) + touched.inserted
      ensures r == if BadTail(vol.g, old(cursor), |buf|) then Err(Underflow) else Ok(())
      ensures r.Ok? ==> Placed() && cursor == old(cursor) + |buf|
                        && WroteIn(vol.g, old(vol.View()), vol.View(), cs, old(cursor), buf)
      ensures OnlyData(old(vol.View()), vol.View(), cs)
    {
      hide Volume.Coherent, Volume.Unsaved, Geometry.Valid, Good, BitmapHeld, Rep, FileDirty.Valid, WroteIn,
           InSectorOffset, InClusterOffset, PlacedAt, Abs, PartialLen, BadTail, OnlyData, Geometry.ClusterLength, Own;
      ghost var v, at := vol.View(), cursor;
      AfterFirst(vol.g, cursor, |buf|);
      r := NextClusterIfRequired();
      var len;
      len, r := WritePartialSector(buf);
      ghost var v1 := vol.View();
      assert buf[..|buf|] == buf;
      if len < |buf| {
        var k := WriteBlocks(buf[len..]);
        ghost var v2 := vol.View();
        var done := len + k;
        assert buf[..len] + buf[len..][..k] == buf[..done];
        WroteInTrans(vol.g, v, v1, v2, cs, at, buf[..len], buf[len..][..k]);
        OnlyDataTrans(v, v1, v2, cs);
        AfterBlocks(vol.g, at, |buf|, done);
        r := WriteTail(buf[done..]);
        OnlyDataTrans(v, v2, vol.View(), cs);
        if r.Ok? {
          assert buf[..done] + buf[done..] == buf;
          WroteInTrans(vol.g, v, v2, vol.View(), cs, at, buf[..done], buf[done..]);
        }
      }
    }

    /** Every cluster is there because the data length calls for it. */
    ghost predicate Sized()
      requires vol.g.Valid()
      reads this`cs, this`details
    {
      |cs| == ClustersFor(details.dataLength, vol.g) && details.validDataLength <= details.dataLength
    }

    /** The allocation part of `write`: makes room for `n` bytes at the cursor. */
    method Reserve(n: nat) returns (r: Result<()>)
      requires Wired() && Owns() && Placed() && Sized()
      modifies this`details, this`chain, this`cs, this`current, this`remaining, alloc, touched, vol.Footprint()
      ensures Wired() && Owns() && Placed()
      ensures details == old(details).(noFat := details.noFat)
      ensures Grew(old(vol.View()), vol.View(), old(cs), cs)
      ensures var need := Shortfall(vol.g, |old(cs)|, cursor + n);
              && r == (if need <= FreeCount(old(vol.View()).alloc, vol.g) then Ok(()) else Err(DiskFull))
              && |cs| == |old(cs)| + if r.Ok? then need else FreeCount(old(vol.View()).alloc, vol.g)
      ensures !touched.isDirEntryDirty ==> details == old(details) && !old(touched.isDirEntryDirty)
      ensures old(touched.inserted) <= touched.inserted
      ensures vol.Unsaved() <= old(vol.Unsaved()) + touched.inserted
    {
      hide Volume.Coherent, Volume.View, Volume.Unsaved, Geometry.Valid, Good, Held, BitmapHeld, FileDirty.Valid,
           PlacedAt, FreeCount, Grew, ClustersFor;
      var capacity := ClustersFor(details.dataLength, vol.g) * vol.g.ClusterLength();
      var end := cursor + n;
      if end > capacity {
        ghost var cs0 := cs;
        ghost var v0 := vol.View();
        r := AllocateClustersFor(end - capacity);
        GrewFirst(v0, vol.View(), cs0, cs);
        PlacedGrown(vol.g, cs0, cs, cursor, old(current), old(remaining), current, remaining);
      } else {
        GrewNone(vol.View(), cs);
        r := Ok(());
      }
    }

    /** `update_data_length`. */
    method UpdateDataLength(n: nat)
      requires Wired()
      modifies this`details, touched`isDirEntryDirty
      ensures Wired() && touched.isDirEntryDirty
      ensures details == Longer(old(details), cursor + n)
    {
      hide Volume.Coherent, Geometry.Valid, Good;
      var valid := if cursor + n > details.validDataLength then cursor + n else details.validDataLength;
      details := details.(
        dataLength := if valid > details.dataLength then valid else details.dataLength,
        validDataLength := valid);
      assert touched as object !in vol.Footprint();
      touched.isDirEntryDirty := true;
    }

    /** The part of `write` behind the checks: reserves room, sets the lengths and stores the bytes. */
    method WriteReserved(buf: seq<byte>) returns (r: Result<()>)
      requires Wired() && Owns() && Placed() && Sized() && canWrite && buf != []
      modifies this`details, this`chain, this`cs, this`current, this`remaining, this`cursor, alloc, touched, vol.Footprint()
      ensures Wired() && Owns()
      ensures r == WriteOutcome(vol.g, true, |old(cs)|, old(cursor), |buf|, FreeCount(old(vol.View()).alloc, vol.g))
      ensures r.Ok? ==>
                && Placed() && Sized() && cursor == old(cursor) + |buf|
                && details == Longer(old(details), old(cursor) + |buf|).(noFat := details.noFat)
                && |cs| == |old(cs)| + Shortfall(vol.g, |old(cs)|, old(cursor) + |buf|)
                && SplicedIn(vol.g, old(vol.View()), vol.View(), cs, old(cursor), buf)
                && touched.isDirEntryDirty
      ensures r == Err(DiskFull) ==>
                && |cs| == |old(cs)| + FreeCount(old(vol.View()).alloc, vol.g)
                && (Sized() <==> FreeCount(old(vol.View()).alloc, vol.g) == 0)
      ensures OnlyOwn(old(vol.View()), vol.View(), old(cs), cs) && SamePlace(old(details), details)
      ensures !touched.isDirEntryDirty ==> details == old(details) && !old(touched.isDirEntryDirty)
      ensures old(touched.inserted) <= touched.inserted
      ensures vol.Unsaved() <= old(vol.Unsaved()) + touched.inserted
    {
      hide Volume.Coherent, Volume.View, Volume.Unsaved, Geometry.Valid, Good, Held, BitmapHeld, FileDirty.Valid,
           PlacedAt, FreeCount, Grew, ClustersFor, WroteIn, OnlyData, BadTail, Shortfall, SplicedIn, OnlyOwn, Abs,
           Visible, WriteAt, GapClean, AllStore, Own;
      ghost var v0, cs0 := vol.View(), cs;
      Reached(vol.g, |cs|, details.dataLength, cursor + |buf|);
      r := Reserve(|buf|);
      ghost var v1 := vol.View();
      GrewOnlyOwn(v0, v1, cs0, cs);
      if r.Err? {
        return;
      }
      UpdateDataLength(|buf|);
      r := WriteData(buf);
      DataOnlyOwn(v0, v1, vol.View(), cs0, cs);
      if r.Ok? {
        GrewWrote(vol.g, v0, v1, vol.View(), cs0, cs, old(cursor), buf);
      }
    }

    /** `write`. It refuses handles not open for writing, fails when too few clusters are free, goes
        wrong on a bad tail, and otherwise splices the buffer into the file at the cursor. What a reader
        sees is then the old contents with the buffer written over them, exactly when no stale byte lies
        between the valid length and the cursor. Whatever the outcome, no other file's clusters, bytes
        or FAT entries change. */
    method Write(buf: seq<byte>) returns (r: Result<()>)
      requires Wired() && Owns() && Placed() && Sized()
      modifies this`details, this`chain, this`cs, this`current, this`remaining, this`cursor, alloc, touched, vol.Footprint()
      ensures Wired() && Owns()
      ensures r == WriteOutcome(vol.g, canWrite, |old(cs)|, old(cursor), |buf|, FreeCount(old(vol.View()).alloc, vol.g))
      ensures buf == [] || r == Err(WriteNotEnabled) ==>
                vol.View() == old(vol.View()) && cs == old(cs) && details == old(details) && Placed()
                    && cursor == old(cursor)
      ensures r.Ok? && buf != [] ==>
                && Placed() && Sized() && cursor == old(cursor) + |buf|
                && details == Longer(old(details), old(cursor) + |buf|).(noFat := details.noFat)
                && |cs| == |old(cs)| + Shortfall(vol.g, |old(cs)|, old(cursor) + |buf|)
                && SplicedIn(vol.g, old(vol.View()), vol.View(), cs, old(cursor), buf)
                && touched.isDirEntryDirty
      ensures r.Ok? && buf != [] && old(cursor) <= old(details).dataLength ==>
                && Sized()
                && (Readable() == WriteAt(old(Readable()), old(cursor), buf)
                    <==> GapClean(old(RawBytes()), old(details).validDataLength, old(cursor)))
      ensures r == Err(DiskFull) ==>
                && |cs| == |old(cs)| + FreeCount(old(vol.View()).alloc, vol.g)
                && (Sized() <==> FreeCount(old(vol.View()).alloc, vol.g) == 0)
      ensures OnlyOwn(old(vol.View()), vol.View(), old(cs), cs) && SamePlace(old(details), details)
      ensures !touched.isDirEntryDirty ==> details == old(details) && !old(touched.isDirEntryDirty)
      ensures old(touched.inserted) <= touched.inserted
      ensures vol.Unsaved() <= old(vol.Unsaved()) + touched.inserted
    {
      hide Volume.Coherent, Volume.View, Volume.Unsaved, Geometry.Valid, Good, Held, BitmapHeld, FileDirty.Valid,
           PlacedAt, FreeCount, Grew, ClustersFor, WroteIn, OnlyData, BadTail, Shortfall, SplicedIn, OnlyOwn, Abs,
           Visible, WriteAt, GapClean, AllStore, Own;
      ViewIs(vol);
      ghost var v0, cs0 := vol.View(), cs;
      GrewNone(v0, cs);
      GrewOnlyOwn(v0, v0, cs, cs);
      if buf == [] {
        return Ok(());
      }
      if !canWrite {
        return Err(WriteNotEnabled);
      }
      r := WriteReserved(buf);
      if r.Ok? && old(cursor) <= old(details).dataLength {
        OwnPrefix(v0, vol.View(), cs0, cs);
        HeldStores(vol.View(), vol.g, chain, details.noFat, cs);
        ViewIs(vol);
        VisibleAfterWrite(old(vol.flat), vol.flat, vol.g, cs0, cs, old(details), details, old(cursor), buf);
      }
    }

    // ---- reading ------------------------------------------------------------------------------

    /** What a reader sees: the chain's bytes up to the valid length, then zeros up to the data
        length. */
    ghost function Readable(): seq<byte>
      requires vol.g.Valid() && Good(vol.flat, vol.g) && Owns() && Sized()
      reads this`chain, this`details, this`cs, vol, touched`inserted
    {
      HeldStores(vol.View(), vol.g, chain, details.noFat, cs);
      Visible(vol.flat, vol.g, cs, details)
    }

    /** Copies valid bytes out of the current sector. */
    method LoadChunk(n: nat) returns (x: seq<byte>)
      requires Wired() && Owns() && Placed() && Sized() && remaining > 0
      requires InSectorOffset(vol.g, cursor) + n <= vol.g.size && cursor + n <= details.validDataLength
      modifies vol.Footprint() - {vol}
      ensures Wired() && Owns() && Sized() && cursor + n <= details.dataLength && vol.Unsaved() <= old(vol.Unsaved())
      ensures |x| == n && x == Readable()[cursor..cursor + n]
    {
      hide Volume.Coherent, Volume.Unsaved, Geometry.Valid, BitmapHeld, Rep, FileDirty.Valid, InSectorOffset,
           PlacedAt, Abs, ClustersFor, Visible, SectorOfCursor, Geometry.Stores;
      PlacedInside(vol.g, cs, cursor, current, remaining);
      var block := vol.Read(Kind.Data, SectorOfCursor(vol.g, current, cursor));
      var start := InSectorOffset(vol.g, cursor);
      x := block[start..start + n];
      ChunkVisible(vol.flat, vol.g, cs, details, cursor, current, remaining, x);
    }

    /** Copies bytes as the reader is to see them: zeros from the valid length on. */
    method LoadVisible(n: nat) returns (x: seq<byte>)
      requires Wired() && Owns() && Placed() && Sized() && remaining > 0
      requires InSectorOffset(vol.g, cursor) + n <= vol.g.size && cursor + n <= details.dataLength
      requires cursor < details.validDataLength ==> cursor + n <= details.validDataLength
      modifies vol.Footprint() - {vol}
      ensures Wired() && Owns() && Sized() && cursor + n <= details.dataLength && vol.Unsaved() <= old(vol.Unsaved())
      ensures |x| == n && x == Readable()[cursor..cursor + n]
    {
      hide Volume.Coherent, Volume.Unsaved, Volume.View, Geometry.Valid, BitmapHeld, Rep, FileDirty.Valid,
           InSectorOffset, InClusterOffset, PlacedAt, Abs, ClustersFor, Visible, Geometry.ClusterLength,
           Geometry.Stores, Held, AllStore, Good, Own;
      if cursor < details.validDataLength {
        x := LoadChunk(n);
      } else {
        HeldStores(vol.View(), vol.g, chain, details.noFat, cs);
        x := seq(n, i => 0);
        ZerosVisible(vol.flat, vol.g, cs, details, cursor, x);
      }
    }

    /** Moves the cursor within its sector. */
    method Advance(n: nat)
      requires Wired() && Placed() && remaining > 0 && 0 < n && InSectorOffset(vol.g, cursor) + n <= vol.g.size
      modifies this`cursor, this`remaining
      ensures Placed() && cursor == old(cursor) + n
    {
      hide Geometry.Valid, PlacedAt, InSectorOffset, Geometry.ClusterLength;
      PlacedInside(vol.g, cs, cursor, current, remaining);
      SectorRoom(vol.g, cursor);
      PlacedMoved(vol.g, cs, cursor, current, remaining, n);
      var moved := MoveCursor(n);
    }

    /** One round of `read`: up to the end of the sector, of the valid bytes and of the file. */
    method ReadSome(n: nat) returns (x: seq<byte>)
      requires Wired() && Owns() && Placed() && Sized() && cursor < details.dataLength && n > 0
      modifies this`cursor, this`current, this`remaining, vol.Footprint() - {vol}
      ensures Wired() && Owns() && Placed() && Sized()
      ensures vol.Unsaved() <= old(vol.Unsaved())
      ensures 0 < |x| <= n && cursor == old(cursor) + |x| && cursor <= details.dataLength
      ensures x == Readable()[old(cursor)..cursor]
    {
      hide Volume.Coherent, Volume.Unsaved, Volume.View, Geometry.Valid, BitmapHeld, Rep, FileDirty.Valid,
           InSectorOffset, InClusterOffset, PlacedAt, Abs, ClustersFor, Visible, Geometry.ClusterLength,
           Geometry.Stores, Held, AllStore, Good, Own, Readable, Owns, HoldsClusters, Placed;
      Reached(vol.g, |cs|, details.dataLength, details.dataLength);
      var fileRemainder := details.dataLength - cursor;
      var validRemainder := if details.validDataLength > cursor then details.validDataLength - cursor else 0;
      var next := NextClusterIfRequired();
      SectorRoom(vol.g, cursor);
      var chunk := Min(Min(vol.g.size - InSectorOffset(vol.g, cursor), fileRemainder), n);
      if validRemainder > 0 {
        chunk := Min(chunk, validRemainder);
      }
      x := LoadVisible(chunk);
      Advance(chunk);
    }

    /** `read`: nothing at the end of the file, otherwise exactly as many bytes as the buffer takes
        and the file still has, as the reader is to see them. */
    method Read(n: nat) returns (r: Result<Option<seq<byte>>>)
      requires Wired() && Owns() && Placed() && Sized()
      modifies this`cursor, this`current, this`remaining, vol.Footprint() - {vol}
      ensures Wired() && Owns() && Placed() && Sized()
      ensures vol.Unsaved() <= old(vol.Unsaved())
      ensures var end := Min(old(cursor) + n, details.dataLength);
              if !canRead then r == Err(ReadNotEnabled) && cursor == old(cursor)
              else if old(cursor) >= details.dataLength then r == Ok(None) && cursor == old(cursor)
              else r == Ok(Some(Readable()[old(cursor)..end])) && cursor == end
    {
      hide Volume.Coherent, Volume.Unsaved, Volume.View, Geometry.Valid, Good, Held, BitmapHeld, FileDirty.Valid,
           PlacedAt, ClustersFor, Visible;
      if !canRead {
        return Err(ReadNotEnabled);
      }
      if cursor >= details.dataLength {
        return Ok(None);
      }
      var buf := [];
      while |buf| < n && cursor < details.dataLength
        invariant Wired() && Owns() && Placed() && Sized()
        invariant vol.Unsaved() <= old(vol.Unsaved())
        invariant |buf| <= n && old(cursor) <= cursor <= details.dataLength && cursor == old(cursor) + |buf|
        invariant buf == Readable()[old(cursor)..cursor]
        decreases n - |buf|
      {
        ghost var at := cursor;
        var x := ReadSome(n - |buf|);
        assert Readable()[old(cursor)..at] + Readable()[at..cursor] == Readable()[old(cursor)..cursor];
        buf := buf + x;
      }
      r := Ok(Some(buf));
    }

    // ---- seeking --------------------------------------------------------------------------------

    /** Where the cursor goes for a position: the cluster and the bytes that remain in it. */
    method Locate(pos: nat) returns (r: Result<(nat, nat)>)
      requires Wired() && Owns() && Sized() && pos <= details.validDataLength
      modifies vol.Footprint() - {vol}
      ensures Wired() && Owns() && Sized() && vol.Unsaved() <= old(vol.Unsaved())
      ensures r == Err(EndOfFatChain) <==> chain.Fat? && pos >= |cs| * vol.g.ClusterLength()
      ensures r.Err? ==> r.error == EndOfFatChain
      ensures r.Ok? ==>
                (PlacedAt(vol.g, cs, pos, r.value.0, r.value.1) <==> cs == [] || pos < |cs| * vol.g.ClusterLength())
    {
      hide Volume.Coherent, Volume.Unsaved, Volume.View, Geometry.Valid, Good, BitmapHeld, Rep, FileDirty.Valid,
           PlacedAt, InClusterOffset, Own, Geometry.ClusterLength;
      LengthPositive(vol.g);
      ClusterIndex(vol.g, |cs|, pos);
      var q := pos / vol.g.ClusterLength();
      var current', remaining' := details.firstCluster, 0;
      match chain {
      case Empty =>
      case Contiguous(first, _) =>
        current' := first + q;
        remaining' := vol.g.ClusterLength() - InClusterOffset(vol.g, pos);
      case Fat(_, _, _) =>
        var c := WalkFat(q);
        if c.Err? {
          return Err(EndOfFatChain);
        }
        current' := c.value;
        remaining' := vol.g.ClusterLength() - InClusterOffset(vol.g, pos);
      }
      SeekPlaced(vol.View().fat, vol.g, chain, details, cs, pos, current', remaining');
      r := Ok((current', remaining'));
    }

    /** `seek`. Up to the valid length it moves the cursor, and then the cursor is well placed
        exactly when the position lies in one of the chain's clusters (or the file is empty): at the
        end of a chain that is exactly full it is not. */
    method Seek(pos: nat) returns (r: Result<()>)
      requires Wired() && Owns() && Sized()
      modifies this`cursor, this`current, this`remaining, vol.Footprint() - {vol}
      ensures Wired() && Owns() && Sized() && vol.Unsaved() <= old(vol.Unsaved())
      ensures r == if pos > details.validDataLength then Err(SeekOutOfRange)
                   else if chain.Fat? && pos >= |cs| * vol.g.ClusterLength() then Err(EndOfFatChain)
                   else Ok(())
      ensures r == Err(SeekOutOfRange) ==>
                cursor == old(cursor) && current == old(current) && remaining == old(remaining)
      ensures r.Ok? ==> cursor == pos && (Placed() <==> cs == [] || pos < |cs| * vol.g.ClusterLength())
    {
      hide Volume.Coherent, Volume.Unsaved, Volume.View, Geometry.Valid, Good, FileDirty.Valid, PlacedAt, Owns,
           Geometry.ClusterLength;
      if pos > details.validDataLength {
        return Err(SeekOutOfRange);
      }
      cursor := pos;
      var at := Locate(pos);
      if at.Err? {
        return Err(EndOfFatChain);
      }
      current, remaining := at.value.0, at.value.1;
      r := Ok(());
    }

    /** Follows `q` links from the first cluster of a FAT chain. */
    method WalkFat(q: nat) returns (r: Result<nat>)
      requires Wired() && Owns() && chain.Fat?
      modifies vol.Footprint() - {vol}
      ensures Wired() && Owns() && vol.Unsaved() <= old(vol.Unsaved())
      ensures r == if q < |cs| then Ok(cs[q]) else Err(EndOfFatChain)
    {
      hide Volume.Coherent, Volume.Unsaved, Volume.View, Geometry.Valid, Good, BitmapHeld, FileDirty.Valid,
           Geometry.Stores, Rep;
      HeapIds(vol.g);
      FatFirst(vol.View().fat, chain, details.noFat, cs);
      var c := chain.first;
      for i := 0 to q
        invariant Wired() && Owns() && vol.Unsaved() <= old(vol.Unsaved())
        invariant i < |cs| && c == cs[i]
      {
        NextInChain(vol.View().fat, chain, details.noFat, cs, i + 1);
        var next := NextCluster(vol, c);
        if next.None? {
          return Err(EndOfFatChain);
        }
        c := next.value;
      }
      r := Ok(c);
    }
  }
}
