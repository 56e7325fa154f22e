/** Reading and writing FAT entries, and linking runs of clusters (src/fat.rs, src/file.rs:607-649
    and 958-994). */
module FatAccess {
  import opened Bytes
  import opened Chains
  import opened Disk
  import opened Results
  import opened Spots
  import opened Touched
  import opened Volume

  /** The FAT entry of cluster `c` is four bytes of the disk, the least significant byte of `v` first. */
  ghost predicate EntryBytes(d: seq<Block>, g: Geometry, c: nat, v: nat) {
    && 4 <= g.size
    && var s, o := g.fatOffset + c / (g.size / 4), 4 * (c % (g.size / 4));
    && 0 <= s < |d| && 0 <= o && o + 4 <= |d[s]|
    && d[s][o] as int == v % 0x100 && d[s][o + 1] as int == v / 0x100 % 0x100
    && d[s][o + 2] as int == v / 0x1_0000 % 0x100 && d[s][o + 3] as int == v / 0x100_0000
  }

  lemma FatRead(d: seq<Block>, g: Geometry, c: nat)
    requires g.Valid() && Good(d, g) && c < g.EndCluster()
    ensures EntryBytes(d, g, c, FatEntry(d, g, c))
  {
    hide FromLE32, FatSectorOf, FatByteOf;
    FatPlace(g, c);
    var s, o := FatSectorOf(g, c), FatByteOf(g, c);
    assert s == g.fatOffset + c / (g.size / 4) && o == 4 * (c % (g.size / 4));
    Read32(d[s], o);
  }

  /** `Fat::set`. */
  method SetEntry(vol: Volume, touched: FileDirty, c: nat, v: nat)
    requires vol.Valid() && touched.Valid(vol.g)
    requires FIRST_CLUSTER_ID <= c < vol.g.EndCluster() && v < TWO32
    modifies vol.Footprint(), touched
    ensures vol.Valid() && touched.Valid(vol.g) && touched.isDirEntryDirty == old(touched.isDirEntryDirty)
    ensures vol.View() == old(vol.View()).(fat := old(vol.View()).fat[c := v])
    ensures EntryBytes(vol.flat, vol.g, c, v)
    ensures old(touched.inserted) <= touched.inserted && Adds(vol.g, [c], old(touched.inserted), touched.inserted)
    ensures vol.Unsaved() <= old(vol.Unsaved()) + touched.inserted
  {
    hide Volume.Coherent, Volume.Unsaved, Geometry.KindOf, Geometry.Valid, Adds, Abs, FileDirty.Valid, EntryBytes;
    var s := FatSectorOf(vol.g, c);
    StoreFatEntry(vol.flat, vol.g, c, v);
    FatSpotsOwn(vol.g, [c], c, touched.inserted);
    touched.Insert(FatSector, s, Span(s, FatByteOf(vol.g, c), 4), vol.g);
    vol.Patch(Kind.Fat, s, FatByteOf(vol.g, c), LE32(v));
    FatStored(vol.flat, vol.g, c, v);
  }

  lemma FatStored(d: seq<Block>, g: Geometry, c: nat, v: nat)
    requires g.Valid() && c < g.EndCluster() && v < TWO32
    requires var s, o := FatSectorOf(g, c), FatByteOf(g, c);
             s < |d| && o + 4 <= |d[s]| && d[s][o..o + 4] == LE32(v)
    ensures EntryBytes(d, g, c, v)
  {
    hide LE32, FatSectorOf, FatByteOf;
    FatPlace(g, c);
    var s, o := FatSectorOf(g, c), FatByteOf(g, c);
    assert s == g.fatOffset + c / (g.size / 4) && o == 4 * (c % (g.size / 4));
    Stored32(d[s], o, v);
  }

  /** `Fat::next_cluster_in_fat_chain`. */
  method NextCluster(vol: Volume, c: nat) returns (r: Option<nat>)
    requires vol.Valid() && FIRST_CLUSTER_ID <= c < vol.g.EndCluster()
    modifies vol.Footprint() - {vol}
    ensures vol.Valid() && vol.Unsaved() <= old(vol.Unsaved())
    ensures r == NextOf(vol.View().fat[c])
    ensures exists e: nat :: EntryBytes(vol.flat, vol.g, c, e) && r == if 2 <= e <= 0xFFFF_FFF6 then Some(e) else None
  {
    hide Volume.Coherent, Geometry.KindOf, Geometry.Valid, EntryBytes;
    FatRead(vol.flat, vol.g, c);
    var block := vol.Read(Kind.Fat, FatSectorOf(vol.g, c));
    var o := FatByteOf(vol.g, c);
    r := NextOf(FromLE32(block[o..o + 4]));
  }

  /** `fat'` is `fat` with cluster `first + i` linked to `first + i + 1` for the first `k` of them. */
  ghost predicate Joined(fat: seq<nat>, fat': seq<nat>, first: nat, k: nat) {
    && |fat'| == |fat|
    && forall c: nat :: c < |fat| ==> fat'[c] == if first <= c < first + k then c + 1 else fat[c]
  }

  /** Links consecutive clusters: `first -> first + 1 -> ...`, `k` links in all. */
  method LinkConsecutive(vol: Volume, touched: FileDirty, first: nat, k: nat)
    requires vol.Valid() && touched.Valid(vol.g)
    requires FIRST_CLUSTER_ID <= first && first + k <= vol.g.EndCluster()
    modifies vol.Footprint(), touched
    ensures vol.Valid() && touched.Valid(vol.g) && touched.isDirEntryDirty == old(touched.isDirEntryDirty)
    ensures vol.View() == old(vol.View()).(fat := vol.View().fat)
    ensures Joined(old(vol.View()).fat, vol.View().fat, first, k)
    ensures old(touched.inserted) <= touched.inserted
    ensures Adds(vol.g, RunSeq(first, k), old(touched.inserted), touched.inserted)
    ensures vol.Unsaved() <= old(vol.Unsaved()) + touched.inserted
  {
    hide Volume.Coherent, Volume.View, Volume.Unsaved, FileDirty.Valid, Geometry.Valid, Good, Adds;
    HeapIds(vol.g);
    AddsNone(vol.g, RunSeq(first, 0), touched.inserted);
    for i := 0 to k
      invariant vol.Valid() && touched.Valid(vol.g) && touched.isDirEntryDirty == old(touched.isDirEntryDirty)
      invariant vol.View() == old(vol.View()).(fat := vol.View().fat)
      invariant Joined(old(vol.View()).fat, vol.View().fat, first, i)
      invariant old(touched.inserted) <= touched.inserted
      invariant Adds(vol.g, RunSeq(first, i), old(touched.inserted), touched.inserted)
      invariant vol.Unsaved() <= old(vol.Unsaved()) + touched.inserted
    {
      ghost var was := touched.inserted;
      SetEntry(vol, touched, first + i, first + i + 1);
      assert RunSeq(first, i + 1) == RunSeq(first, i) + [first + i];
      AddsTrans(vol.g, RunSeq(first, i), [first + i], RunSeq(first, i + 1), old(touched.inserted), was, touched.inserted);
    }
  }

  lemma HeapIds(g: Geometry)
    requires g.Valid()
    ensures g.EndCluster() <= MAX_CLUSTER_ID + 1
  {
  }

  /** What appending a run does to the FAT of a chain that the FAT records. */
  ghost predicate Appended(fat: seq<nat>, fat': seq<nat>, prev: Option<nat>, first: nat, count: nat) {
    && |fat'| == |fat|
    && forall c: nat :: c < |fat| ==>
         fat'[c] == if first <= c < first + count - 1 then c + 1
                    else if c == first + count - 1 then END_OF_CHAIN
                    else if prev == Some(c) then first
                    else fat[c]
  }

  ghost function Links(prev: Option<nat>): seq<nat> { if prev.Some? then [prev.value] else [] }

  /** The linking part of `update_chain`: joins a run to the end of a chain and ends it. */
  method AppendRun(vol: Volume, touched: FileDirty, prev: Option<nat>, first: nat, count: nat)
    requires vol.Valid() && touched.Valid(vol.g)
    requires FIRST_CLUSTER_ID <= first && first + count <= vol.g.EndCluster() && count > 0
    requires prev.Some? ==>
               FIRST_CLUSTER_ID <= prev.value < vol.g.EndCluster() && !(first <= prev.value < first + count)
    modifies vol.Footprint(), touched
    ensures vol.Valid() && touched.Valid(vol.g) && touched.isDirEntryDirty == old(touched.isDirEntryDirty)
    ensures vol.View() == old(vol.View()).(fat := vol.View().fat)
    ensures Appended(old(vol.View()).fat, vol.View().fat, prev, first, count)
    ensures old(touched.inserted) <= touched.inserted
    ensures Adds(vol.g, Links(prev) + RunSeq(first, count), old(touched.inserted), touched.inserted)
    ensures vol.Unsaved() <= old(vol.Unsaved()) + touched.inserted
  {
    hide Volume.Coherent, Volume.View, Volume.Unsaved, FileDirty.Valid, Geometry.Valid, Good, Adds;
    HeapIds(vol.g);
    ghost var all, was0 := Links(prev) + RunSeq(first, count), touched.inserted;
    AddsNone(vol.g, Links(prev), was0);
    if prev.Some? {
      SetEntry(vol, touched, prev.value, first);
    }
    ghost var was1 := touched.inserted;
    LinkConsecutive(vol, touched, first, count - 1);
    ghost var was2 := touched.inserted;
    SetEntry(vol, touched, first + count - 1, END_OF_CHAIN);
    assert RunSeq(first, count) == RunSeq(first, count - 1) + [first + count - 1];
    AddsTrans(vol.g, Links(prev), RunSeq(first, count - 1), all, was0, was1, was2);
    AddsTrans(vol.g, all, [first + count - 1], all, was0, was2, touched.inserted);
  }
}
