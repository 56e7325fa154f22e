/** Chains at rest: what a directory entry records of a chain, finding the chain again from that
    record, and giving its clusters back (src/file_system.rs:424-455 and 813-844,
    src/allocation.rs:264-313, src/file.rs:383-401). */
module ChainStore {
  import opened Allocator
  import opened Bytes
  import opened Chains
  import opened Disk
  import opened FatAccess
  import opened File
  import opened FileData
  import opened FreeSearch
  import opened Results
  import opened Touched
  import opened Volume

  /** The record `f` is that of a file with clusters `cs`. */
  ghost predicate Persisted(fat: seq<nat>, g: Geometry, f: FileDetails, cs: seq<nat>)
    requires g.Valid()
  {
    && Distinct(cs) && InHeap(cs, |fat|)
    && |cs| == ClustersFor(f.dataLength, g) && f.validDataLength <= f.dataLength
    && (cs != [] ==> f.firstCluster == cs[0])
    && (if f.noFat then cs == [] || cs == RunSeq(cs[0], |cs|) else Linked(fat, cs))
  }

  /** The first cluster that `File::flush` stores. */
  function FirstOf(chain: StoredChain): nat {
    match chain
    case Empty => NO_CLUSTER_ID
    case Contiguous(first, _) => first
    case Fat(first, _, _) => first
  }

  /** Flushing records the chain faithfully, whatever its shape. */
  lemma FlushPersists(fat: seq<nat>, g: Geometry, chain: StoredChain, f: FileDetails, cs: seq<nat>)
    requires g.Valid() && Rep(fat, chain, f.noFat, cs)
    requires |cs| == ClustersFor(f.dataLength, g) && f.validDataLength <= f.dataLength
    ensures Persisted(fat, g, f.(firstCluster := FirstOf(chain)), cs)
  {
  }

  /** The shape `get_stored_chain` comes back with; a chain held as Contiguous but linked in the
      FAT comes back as Fat. */
  ghost function Reopened(f: FileDetails, cs: seq<nat>): StoredChain {
    if cs == [] then Empty
    else if f.noFat then Contiguous(cs[0], |cs|)
    else StoredChain.Fat(cs[0], cs[|cs| - 1], |cs|)
  }

  lemma ReopenedRep(fat: seq<nat>, g: Geometry, f: FileDetails, cs: seq<nat>)
    requires g.Valid() && Persisted(fat, g, f, cs)
    ensures Rep(fat, Reopened(f, cs), f.noFat, cs)
  {
  }

  /** `get_stored_chain`: recovers the same clusters the record was made from. */
  method GetStoredChain(vol: Volume, f: FileDetails, ghost cs: seq<nat>) returns (r: Result<StoredChain>)
    requires vol.Valid() && Persisted(vol.View().fat, vol.g, f, cs)
    modifies vol.Footprint() - {vol}
    ensures vol.Valid() && vol.Unsaved() <= old(vol.Unsaved())
    ensures r == Ok(Reopened(f, cs)) && Rep(vol.View().fat, r.value, f.noFat, cs)
  {
    hide Volume.Coherent, Volume.Unsaved, Volume.View, Geometry.Valid, Good, Rep, ClustersFor, Linked;
    ReopenedRep(vol.View().fat, vol.g, f, cs);
    var count := ClustersFor(f.dataLength, vol.g);
    if f.firstCluster == NO_CLUSTER_ID || count == 0 {
      r := Ok(Empty);
    } else if f.noFat {
      r := Ok(Contiguous(f.firstCluster, count));
    } else {
      var last := ClusterIdAt(vol, f.dataLength, f, cs);
      r := Ok(StoredChain.Fat(f.firstCluster, last.value, count));
    }
  }

  /** `get_cluster_id_at` for a file recorded in the FAT: the cluster that holds the byte before
      position `at`. */
  method ClusterIdAt(vol: Volume, at: nat, f: FileDetails, ghost cs: seq<nat>) returns (r: Result<nat>)
    requires vol.Valid() && Persisted(vol.View().fat, vol.g, f, cs) && !f.noFat && cs != [] && at == f.dataLength
    modifies vol.Footprint() - {vol}
    ensures vol.Valid() && vol.Unsaved() <= old(vol.Unsaved())
    ensures r == Ok(cs[|cs| - 1])
  {
    hide Volume.Coherent, Volume.Unsaved, Volume.View, Geometry.Valid, Good, ClustersFor, Linked, Distinct;
    HeapIds(vol.g);
    LastIndex(vol.g, at);
    var n := (at - 1) / vol.g.ClusterLength();
    var c := f.firstCluster;
    for i := 0 to n
      invariant vol.Valid() && vol.Unsaved() <= old(vol.Unsaved())
      invariant i < |cs| && c == cs[i]
    {
      LinkedNext(vol.View().fat, cs, i);
      var next := NextCluster(vol, c);
      if next.None? {
        return Err(EndOfFatChain);
      }
      c := next.value;
    }
    r := Ok(c);
  }

  lemma LinkedNext(fat: seq<nat>, cs: seq<nat>, i: nat)
    requires InHeap(cs, |fat|) && Linked(fat, cs) && i + 1 < |cs| && |fat| <= MAX_CLUSTER_ID + 1
    ensures NextOf(fat[cs[i]]) == Some(cs[i + 1])
  {
    assert fat[cs[i]] == After(cs, i, END_OF_CHAIN);
  }

  lemma LastIndex(g: Geometry, len: nat)
    requires g.Valid() && ClustersFor(len, g) > 0
    ensures len > 0 && 0 < g.ClusterLength() && (len - 1) / g.ClusterLength() == ClustersFor(len, g) - 1
  {
    var cl, m := g.ClusterLength(), ClustersFor(len, g) - 1;
    LengthPositive(g);
    CeilBound(len, cl);
    assert (m + 1) * cl == m * cl + cl;
    DivModUnique(len - 1, cl, m, len - 1 - m * cl);
  }

  // ---- giving clusters back ---------------------------------------------------------

  /** From `v` to `v'` the clusters `cs` were freed, and nothing outside them changed. */
  ghost predicate Freed(v: Vol, v': Vol, cs: seq<nat>) {
    && v'.alloc == v.alloc - SetOf(cs) && v'.data == v.data && |v'.fat| == |v.fat|
    && forall c: nat :: c < |v.fat| && c !in cs ==> v'.fat[c] == v.fat[c]
  }

  /** `Allocator::free`: every cluster of the chain becomes free, and a FAT chain is unlinked. */
  method FreeChain(alloc: Allocator, touched: FileDirty, chain: StoredChain, ghost noFat: bool, ghost cs: seq<nat>)
    requires alloc.Valid() && touched.Valid(alloc.vol.g)
    requires Rep(alloc.vol.View().fat, chain, noFat, cs) && SetOf(cs) <= alloc.vol.View().alloc
    modifies alloc.vol.Footprint(), touched
    ensures alloc.Valid() && touched.Valid(alloc.vol.g)
    ensures Freed(old(alloc.vol.View()), alloc.vol.View(), cs)
    ensures old(touched.inserted) <= touched.inserted
    ensures alloc.vol.Unsaved() <= old(alloc.vol.Unsaved()) + touched.inserted
  {
    hide Volume.Coherent, Volume.Unsaved, Volume.View, Geometry.Valid, Good, Linked, FileDirty.Valid, Distinct,
         InHeap;
    match chain {
      case Empty =>
      case Contiguous(first, count) =>
        RunMembers(first, count);
        AllocBounds(alloc.vol, cs);
        assert cs[0] == first && cs[count - 1] == first + count - 1;
        var r := alloc.MarkAllocated(touched, Run(first, count), false);
        assert SetOf(cs) == Clusters(Run(first, count));
      case Fat(first, _, count) =>
        HeapIds(alloc.vol.g);
        AllocBounds(alloc.vol, cs);
        UnlinkedChain(alloc.vol.View(), alloc.vol.View(), cs);
        ghost var v := alloc.vol.View();
        ghost var freed;
        var r;
        r, freed := FreeFat(alloc, touched, first, count);
        UnlinkedChain(v, alloc.vol.View(), cs);
    }
  }

  lemma AllocBounds(vol: Volume, cs: seq<nat>)
    requires vol.g.Valid() && Good(vol.flat, vol.g) && SetOf(cs) <= vol.View().alloc
    ensures forall i :: 0 <= i < |cs| ==> FIRST_CLUSTER_ID <= cs[i] < vol.g.BitEnd() <= vol.g.EndCluster()
  {
    BitEndFacts(vol.g);
    forall i | 0 <= i < |cs| ensures FIRST_CLUSTER_ID <= cs[i] < vol.g.BitEnd() {
      assert cs[i] in SetOf(cs);
      assert cs[i] in AllocSet(vol.flat, vol.g);
    }
  }

  /** From `v` to `v'` exactly the clusters of `s` were freed, and their FAT entries cleared. */
  ghost predicate Unlinked(v: Vol, v': Vol, s: set<nat>) {
    && v'.alloc == v.alloc - s && v'.data == v.data && |v'.fat| == |v.fat|
    && forall c: nat :: c < |v.fat| ==> v'.fat[c] == if c in s then NO_CLUSTER_ID else v.fat[c]
  }

  /** The walk from `first` has passed the clusters `s` and stands at `c`, with `n` steps to go. */
  ghost predicate WalkAt(fat: seq<nat>, all: set<nat>, s: set<nat>, c: nat, n: nat) {
    && all == s + SetOf(Walk(fat, c, n))
    && (forall x :: x in s ==> x < |fat| && NextOf(fat[x]).Some? && (NextOf(fat[x]).value == c || NextOf(fat[x]).value in s))
  }

  /** Inside a set that following entries never leaves, the walk stays. */
  lemma {:induction false} WalkStays(fat: seq<nat>, s: set<nat>, c: nat, n: nat)
    requires c in s && forall x :: x in s ==> x < |fat| && (NextOf(fat[x]).Some? ==> NextOf(fat[x]).value in s)
    ensures SetOf(Walk(fat, c, n)) <= s
    decreases n
  {
    hide NextOf;
    if n > 0 {
      WalkStep(fat, c, n);
      var next := NextOf(fat[c]);
      if next.Some? {
        WalkStays(fat, s, next.value, n - 1);
        assert forall x :: x in Walk(fat, c, n) ==> x == c || x in SetOf(Walk(fat, next.value, n - 1));
      }
    }
  }

  /** One step on: either the walk goes on to the next cluster, or it has met all it ever will, because
      the chain ends here or comes back to a cluster that was already unlinked. */
  lemma WalkOn(fat: seq<nat>, fat1: seq<nat>, all: set<nat>, s: set<nat>, c: nat, n: nat)
    requires WalkAt(fat, all, s, c, n) && n > 0 && c < |fat| && |fat1| == |fat|
    requires fat1[c] == if c in s then NO_CLUSTER_ID else fat[c]
    ensures c in all
    ensures match NextOf(fat1[c])
            case None => all == s + {c}
            case Some(next) => WalkAt(fat, all, s + {c}, next, n - 1)
  {
    hide Walk;
    WalkStep(fat, c, n);
    var w := Walk(fat, c, n);
    assert c in w;
    if c in s {
      WalkStays(fat, s, c, n);
    } else if NextOf(fat[c]).Some? {
      var next := NextOf(fat[c]).value;
      assert forall x :: x in w <==> x == c || x in Walk(fat, next, n - 1);
      assert SetOf(w) == {c} + SetOf(Walk(fat, next, n - 1));
    }
  }

  /** Walks a FAT chain, freeing and unlinking one cluster at a time. Whatever the FAT says, also when
      its links run in a cycle, the clusters met within `count` steps are those that come to be free, and
      no others; the walk stops early only at a cluster that the bitmap has no bit for. */
  method FreeFat(alloc: Allocator, touched: FileDirty, first: nat, count: nat) returns (r: Result<()>,
                 ghost freed: set<nat>)
    requires alloc.Valid() && touched.Valid(alloc.vol.g)
    requires forall c :: c in Walk(alloc.vol.View().fat, first, count) ==>
               FIRST_CLUSTER_ID <= c < alloc.vol.g.EndCluster()
    modifies alloc.vol.Footprint(), touched
    ensures alloc.Valid() && touched.Valid(alloc.vol.g)
    ensures Unlinked(old(alloc.vol.View()), alloc.vol.View(), freed)
    ensures r.Ok? <==> forall c :: c in Walk(old(alloc.vol.View()).fat, first, count) ==> c < alloc.vol.g.BitEnd()
    ensures var met := SetOf(Walk(old(alloc.vol.View()).fat, first, count));
            if r.Ok? then freed == met else freed < met
    ensures old(touched.inserted) <= touched.inserted
    ensures alloc.vol.Unsaved() <= old(alloc.vol.Unsaved()) + touched.inserted
  {
    hide Volume.Coherent, Volume.Unsaved, Volume.View, Geometry.Valid, Good, FileDirty.Valid, Walk, NextOf, Unlinked,
         Marked, WalkAt;
    ghost var v, g := alloc.vol.View(), alloc.vol.g;
    ghost var all := SetOf(Walk(v.fat, first, count));
    HeapIds(g);
    WalkStarts(v, first, count);
    var c := first;
    var i := 0;
    freed := {};
    while i < count
      invariant alloc.Valid() && touched.Valid(g) && i <= count
      invariant WalkAt(v.fat, all, freed, c, count - i) && Unlinked(v, alloc.vol.View(), freed)
      invariant forall x :: x in freed ==> x < g.BitEnd()
      invariant i < count || freed == all
      invariant old(touched.inserted) <= touched.inserted
      invariant alloc.vol.Unsaved() <= old(alloc.vol.Unsaved()) + touched.inserted
    {
      ghost var v1 := alloc.vol.View();
      WalkMeets(v.fat, all, freed, c, count - i);
      UnlinkedAt(v, v1, freed, c);
      WalkOn(v.fat, v1.fat, all, freed, c, count - i);
      var next := NextCluster(alloc.vol, c);
      r := alloc.MarkAllocated(touched, Run(c, 1), false);
      if r.Err? {
        assert c in Walk(v.fat, first, count);
        return;
      }
      SetEntry(alloc.vol, touched, c, NO_CLUSTER_ID);
      UnlinkOne(v, v1, alloc.vol.View(), freed, c);
      freed := freed + {c};
      i := i + 1;
      if next.None? {
        break;
      }
      c := next.value;
      WalkEnds(v.fat, all, freed, c, count - i);
    }
    assert forall x :: x in Walk(v.fat, first, count) ==> x in all;
    r := Ok(());
  }

  lemma WalkStarts(v: Vol, first: nat, count: nat)
    ensures WalkAt(v.fat, SetOf(Walk(v.fat, first, count)), {}, first, count) && Unlinked(v, v, {})
    ensures count == 0 ==> SetOf(Walk(v.fat, first, count)) == {}
  {
    hide Unlinked;
    UnlinkedNone(v);
    if count == 0 {
      assert Walk(v.fat, first, count) == [];
    }
    assert {} + SetOf(Walk(v.fat, first, count)) == SetOf(Walk(v.fat, first, count));
  }

  lemma UnlinkedNone(v: Vol)
    ensures Unlinked(v, v, {})
  {
  }

  lemma WalkMeets(fat: seq<nat>, all: set<nat>, s: set<nat>, c: nat, n: nat)
    requires WalkAt(fat, all, s, c, n) && n > 0
    ensures c in all && s <= all
  {
    assert c in Walk(fat, c, n);
  }

  lemma WalkEnds(fat: seq<nat>, all: set<nat>, s: set<nat>, c: nat, n: nat)
    requires WalkAt(fat, all, s, c, n)
    ensures n == 0 ==> s == all
  {
  }

  lemma UnlinkedAt(v: Vol, v1: Vol, s: set<nat>, c: nat)
    requires Unlinked(v, v1, s) && c < |v.fat|
    ensures |v1.fat| == |v.fat| && v1.fat[c] == if c in s then NO_CLUSTER_ID else v.fat[c]
  {
  }

  lemma UnlinkOne(v: Vol, v1: Vol, v2: Vol, s: set<nat>, c: nat)
    requires Unlinked(v, v1, s) && c < |v.fat|
    requires v2 == Vol(Marked(v1.alloc, Run(c, 1), false), v1.fat[c := NO_CLUSTER_ID], v1.data)
    ensures Unlinked(v, v2, s + {c})
  {
    assert Clusters(Run(c, 1)) == {c};
  }

  /** For a chain that is linked as it should be, what was met is the chain. */
  lemma UnlinkedChain(v: Vol, v': Vol, cs: seq<nat>)
    requires InHeap(cs, |v.fat|) && Linked(v.fat, cs) && cs != [] && |v.fat| <= MAX_CLUSTER_ID + 1
    ensures Walk(v.fat, cs[0], |cs|) == cs
    ensures Unlinked(v, v', SetOf(cs)) ==> Freed(v, v', cs)
  {
    WalkYields(v.fat, cs, |cs|);
  }
}
