/** Free clusters and the clusters of files always add up to what the system leaves over. */
module Conservation {
  import opened Allocator
  import opened Bytes
  import opened Chains
  import opened ChainStore
  import opened Disk
  import opened File
  import opened FileData
  import opened FsState
  import opened Names
  import opened Spots

  // ---- adding up a map ----------------------------------------------------------------

  ghost function Total(m: map<Name, nat>): nat {
    if m == map[] then 0
    else
      var k :| k in m;
      m[k] + Total(m - {k})
  }

  lemma {:induction false} TotalWithout(m: map<Name, nat>, id: Name)
    requires id in m
    ensures Total(m) == m[id] + Total(m - {id})
    decreases |m|
  {
    var k :| k in m && Total(m) == m[k] + Total(m - {k});
    if k != id {
      TotalWithout(m - {k}, id);
      TotalWithout(m - {id}, k);
      assert m - {k} - {id} == m - {id} - {k};
    }
  }

  lemma TotalWith(m: map<Name, nat>, id: Name, v: nat)
    ensures Total(m[id := v]) == v + Total(m - {id})
    ensures Total(m) == (if id in m then m[id] else 0) + Total(m - {id})
  {
    TotalWithout(m[id := v], id);
    assert m[id := v] - {id} == m - {id};
    if id in m {
      TotalWithout(m, id);
    } else {
      assert m - {id} == m;
    }
  }

  // ---- clusters -------------------------------------------------------------------------

  function Sizes(chains: map<Name, seq<nat>>): map<Name, nat> {
    map id | id in chains :: |chains[id]|
  }

  lemma {:induction false} DistinctSize(cs: seq<nat>)
    requires Distinct(cs)
    ensures |SetOf(cs)| == |cs|
  {
    if cs != [] {
      DistinctSize(cs[1..]);
      assert cs == [cs[0]] + cs[1..];
      assert SetOf(cs) == {cs[0]} + SetOf(cs[1..]);
    }
  }

  lemma SizeWithout(owned: set<nat>, mine: set<nat>)
    requires mine <= owned
    ensures |owned| == |owned - mine| + |mine|
  {
    assert owned == (owned - mine) + mine;
  }

  /** Ownership without one file and its clusters. */
  lemma OwnershipWithout(alloc: set<nat>, system: set<nat>, chains: map<Name, seq<nat>>, owner: map<nat, Name>,
                         id: Name)
    requires Ownership(alloc, system, chains, owner) && id in chains
    ensures Ownership(alloc - SetOf(chains[id]), system, chains - {id}, owner - SetOf(chains[id]))
  {
    hide Ownership;
    OwnershipShrink(alloc, system, chains, owner, id);
    OwnershipDrop(alloc - SetOf(chains[id]), system, chains[id := []], owner - SetOf(chains[id]), id);
    assert chains[id := []] - {id} == chains - {id};
  }

  lemma OwnedWithout(alloc: set<nat>, system: set<nat>, chains: map<Name, seq<nat>>, owner: map<nat, Name>, id: Name)
    requires Ownership(alloc, system, chains, owner) && id in chains
    ensures |owner.Keys| == |(owner - SetOf(chains[id])).Keys| + |SetOf(chains[id])|
  {
    hide Ownership;
    OwnsSet(alloc, system, chains, owner, id);
    assert (owner - SetOf(chains[id])).Keys == owner.Keys - SetOf(chains[id]);
    SizeWithout(owner.Keys, SetOf(chains[id]));
  }

  lemma OwnsSet(alloc: set<nat>, system: set<nat>, chains: map<Name, seq<nat>>, owner: map<nat, Name>, id: Name)
    requires Ownership(alloc, system, chains, owner)
    ensures id in chains ==> SetOf(chains[id]) <= owner.Keys
    ensures chains == map[] ==> owner.Keys == {}
  {
  }

  lemma SizesWithout(chains: map<Name, seq<nat>>, id: Name)
    requires id in chains
    ensures Total(Sizes(chains)) == |chains[id]| + Total(Sizes(chains - {id}))
  {
    assert Sizes(chains) - {id} == Sizes(chains - {id});
    TotalWithout(Sizes(chains), id);
  }

  lemma {:induction false} OwnedCount(alloc: set<nat>, system: set<nat>, chains: map<Name, seq<nat>>,
                                      owner: map<nat, Name>)
    requires Ownership(alloc, system, chains, owner)
    requires forall id :: id in chains ==> Distinct(chains[id])
    ensures |owner.Keys| == Total(Sizes(chains))
    decreases |chains|
  {
    hide Ownership, Distinct;
    if chains == map[] {
      OwnsSet(alloc, system, chains, owner, []);
    } else {
      var id :| id in chains;
      OwnershipWithout(alloc, system, chains, owner, id);
      OwnedWithout(alloc, system, chains, owner, id);
      OwnedCount(alloc - SetOf(chains[id]), system, chains - {id}, owner - SetOf(chains[id]));
      DistinctSize(chains[id]);
      SizesWithout(chains, id);
    }
  }

  /** How many clusters the system leaves for files. */
  ghost function Room(g: Geometry, fs: Fs): nat { |FreeSet(fs.system, g)| }

  lemma FileDistinct(g: Geometry, v: Vol, fs: Fs, id: Name)
    requires g.Valid() && id in fs.records && id in fs.chains && FileOk(g, v, fs, id)
    ensures Distinct(fs.chains[id])
  {
  }

  lemma FreeBeside(d: seq<Block>, g: Geometry, system: set<nat>, owned: set<nat>)
    requires g.Valid() && Good(d, g) && AllocSet(d, g) == system + owned && system !! owned
    ensures FreeCount(AllocSet(d, g), g) + |owned| == |FreeSet(system, g)|
  {
    assert owned <= FreeSet(system, g) by {
      assert forall c :: c in owned ==> c in AllocSet(d, g);
    }
    assert FreeSet(AllocSet(d, g), g) == FreeSet(system, g) - owned;
  }

  /** Wherever the state is sound no cluster is lost and none is counted twice: free clusters and the
      files' clusters add up to the room the system leaves. */
  lemma ClustersConserved(g: Geometry, d: seq<Block>, unsaved: set<Spot>, fs: Fs)
    requires Sound(g, d, unsaved, fs)
    ensures FreeClusters(g, d) + Total(Sizes(fs.chains)) == Room(g, fs)
  {
    hide FileOk, FreeSet, Geometry.Valid, Good, Covered, Ownership;
    forall id | id in fs.chains ensures Distinct(fs.chains[id]) {
      FileDistinct(g, Abs(d, g), fs, id);
    }
    OwnedCount(Abs(d, g).alloc, fs.system, fs.chains, fs.owner);
    OwnershipParts(Abs(d, g).alloc, fs.system, fs.chains, fs.owner);
    FreeBeside(d, g, fs.system, fs.owner.Keys);
  }

  lemma OwnershipParts(alloc: set<nat>, system: set<nat>, chains: map<Name, seq<nat>>, owner: map<nat, Name>)
    requires Ownership(alloc, system, chains, owner)
    ensures alloc == system + owner.Keys && system !! owner.Keys
  {
  }
}
