/** Where a file's cursor stands in its chain (src/file.rs:315-342, 720-733, 1044-1047). */
module Cursor {
  import opened Bytes
  import opened Disk

  /** The cursor is inside the cluster at index `cursor / cl`, which is the current one. */
  ghost predicate InCluster(cs: seq<nat>, cl: nat, cursor: nat, current: nat, remaining: nat)
    requires 0 < cl
  {
    && 0 <= cursor / cl < |cs| && current == cs[cursor / cl]
    && remaining == cl - cursor % cl
  }

  /** The cursor is on a cluster boundary and the current cluster is the one just used up. */
  ghost predicate AtBoundary(cs: seq<nat>, cl: nat, cursor: nat, current: nat, remaining: nat)
    requires 0 < cl
  {
    && cursor % cl == 0 && remaining == 0
    && 1 <= cursor / cl <= |cs| && current == cs[cursor / cl - 1]
  }

  /** The invariant of an open file's cursor. */
  ghost predicate At(cs: seq<nat>, cl: nat, cursor: nat, current: nat, remaining: nat)
    requires 0 < cl
  {
    || (cs == [] && cursor == 0 && remaining == 0)
    || InCluster(cs, cl, cursor, current, remaining)
    || AtBoundary(cs, cl, cursor, current, remaining)
  }

  /** Moving by no more than what remains keeps the invariant and never underflows; the cursor is
      used up exactly when it reaches the next boundary. */
  lemma Moved(cs: seq<nat>, cl: nat, cursor: nat, current: nat, remaining: nat, n: nat)
    requires 0 < cl && InCluster(cs, cl, cursor, current, remaining) && n <= remaining
    ensures At(cs, cl, cursor + n, current, remaining - n)
    ensures n > 0 ==> (remaining - n == 0 <==> (cursor + n) % cl == 0)
    ensures n < remaining ==> InCluster(cs, cl, cursor + n, current, remaining - n)
  {
    DivModFacts(cursor, cl);
    var q, o := cursor / cl, cursor % cl;
    if n < remaining {
      DivModUnique(cursor + n, cl, q, o + n);
    } else {
      assert (q + 1) * cl == q * cl + cl;
      DivModUnique(cursor + n, cl, q + 1, 0);
    }
  }

  /** The invariant pins down how far the chain must reach. */
  lemma AtInside(cs: seq<nat>, cl: nat, cursor: nat, current: nat, remaining: nat)
    requires 0 < cl && At(cs, cl, cursor, current, remaining)
    ensures cursor <= |cs| * cl
    ensures cursor < |cs| * cl <==> cursor / cl < |cs|
    ensures remaining > 0 ==> InCluster(cs, cl, cursor, current, remaining)
    ensures remaining == 0 ==> cs == [] || AtBoundary(cs, cl, cursor, current, remaining)
  {
    DivModFacts(cursor, cl);
    if cs != [] {
      var q := cursor / cl;
      if q < |cs| {
        MulMono(q + 1, |cs|, cl);
        assert (q + 1) * cl == q * cl + cl;
      } else {
        assert q == |cs|;
      }
    }
  }

  lemma AtExtended(cs: seq<nat>, cs': seq<nat>, cl: nat, cursor: nat, current: nat, remaining: nat)
    requires 0 < cl && At(cs, cl, cursor, current, remaining) && cs <= cs' && cs != []
    ensures At(cs', cl, cursor, current, remaining)
  {
  }

  lemma AtStart(cs: seq<nat>, cl: nat, current: nat)
    requires 0 < cl && cs != [] && current == cs[0]
    ensures InCluster(cs, cl, 0, current, cl)
  {
    DivModUnique(0, cl, 0, 0);
  }

  // ---- sectors inside clusters -------------------------------------------------------

  function InClusterOffset(g: Geometry, cursor: nat): (o: nat)
    requires g.Valid()
    ensures o < g.ClusterLength()
  {
    SectorOffset(g, cursor);
    cursor % g.ClusterLength()
  }

  function InSectorOffset(g: Geometry, cursor: nat): (o: nat)
    requires g.Valid()
    ensures o < g.size
  {
    SectorOffset(g, cursor);
    cursor % g.size
  }

  /** The byte offset within the sector is the same seen from the file and from the cluster, and
      the rest of the sector is no more than the rest of the cluster. */
  lemma SectorOffset(g: Geometry, cursor: nat)
    requires g.Valid()
    ensures 0 < g.size && 0 < g.ClusterLength()
    ensures (cursor % g.ClusterLength()) % g.size == cursor % g.size
    ensures 0 <= cursor % g.ClusterLength() < g.ClusterLength()
    ensures g.size - cursor % g.size <= g.ClusterLength() - cursor % g.ClusterLength()
    ensures 0 <= cursor % g.size < g.size
  {
    var cl, sz, spc := g.ClusterLength(), g.size, g.sectorsPerCluster;
    assert cl > 0;
    DivModFacts(cursor, cl);
    var o := cursor % cl;
    DivModFacts(o, sz);
    var q := (cursor / cl) * spc + o / sz;
    assert cursor == q * sz + o % sz by {
      Regroup(cursor / cl, spc, sz, o / sz, o % sz);
    }
    DivModUnique(cursor, sz, q, o % sz);
    WithinSector(g, o, sz - o % sz);
  }

  lemma Regroup(a: nat, spc: nat, sz: nat, b: nat, r: nat)
    ensures a * (sz * spc) + (b * sz + r) == (a * spc + b) * sz + r
  {
    assert a * (sz * spc) == (a * spc) * sz;
  }

  /** Opening for append takes the last cluster and the offset of the valid length. That is right
      exactly when the valid length lies in the last cluster. */
  lemma AppendPlaced(cs: seq<nat>, cl: nat, valid: nat)
    requires 0 < cl && cs != [] && forall i, j :: 0 <= i < j < |cs| ==> cs[i] != cs[j]
    ensures At(cs, cl, valid, cs[|cs| - 1], cl - valid % cl) <==> valid / cl == |cs| - 1
  {
    DivModFacts(valid, cl);
  }

  /** A file of exactly one full cluster, opened for append, is not well placed: its next byte would
      overwrite its first. */
  lemma AppendToFullCluster()
    ensures !At([5], 4096, 4096, 5, 4096 - 4096 % 4096)
  {
    AppendPlaced([5], 4096, 4096);
  }
}
