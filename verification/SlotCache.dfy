/** The write-back sector cache with clock replacement (src/slot_cache.rs). Each operation is
    proved against a flat disk: `flat` is what the disk would hold if there were no cache. */
module SlotCache {
  import opened Bytes
  import opened Results

  /** A block device that does not fail. It remembers which sectors were written, and in what order. */
  class Device {
    var blocks: seq<Block>
    ghost var log: seq<nat>

    constructor (blocks: seq<Block>)
      ensures this.blocks == blocks && log == []
    {
      this.blocks := blocks;
      log := [];
    }

    method Read(s: nat) returns (b: Block)
      requires s < |blocks|
      ensures b == blocks[s]
    {
      b := blocks[s];
    }

    method Write(s: nat, b: Block)
      requires s < |blocks|
      modifies this
      ensures blocks == old(blocks)[s := b] && log == old(log) + [s]
    {
      blocks := blocks[s := b];
      log := log + [s];
    }
  }


  datatype Slot = Slot(sector: nat, dirty: bool, used: bool, valid: bool, block: Block)

  // ---- the invariant, on values ---------------------------------------------

  predicate Holds(x: Slot, s: nat) { x.valid && x.sector == s }

  /** No sector is cached twice. */
  ghost predicate Unique(slots: seq<Slot>) {
    forall i, j :: 0 <= i < j < |slots| && slots[i].valid && slots[j].valid ==> slots[i].sector != slots[j].sector
  }

  /** Slots are filled from the left, and unfilled ones are as `Slot::new` made them. */
  ghost predicate Prefix(slots: seq<Slot>) {
    && (forall i, j :: 0 <= i < j < |slots| && slots[j].valid ==> slots[i].valid)
    && (forall i :: 0 <= i < |slots| && !slots[i].valid ==> !slots[i].dirty && slots[i].sector == 0)
  }

  ghost predicate HandOk(slots: seq<Slot>, hand: nat) {
    hand < |slots| && forall i :: 0 <= i < hand ==> slots[i].valid
  }

  /** The sectors of the dirty slots, in slot order. */
  ghost function DirtySectors(slots: seq<Slot>): (r: seq<nat>) {
    if slots == [] then []
    else
      var n := |slots| - 1;
      DirtySectors(slots[..n]) + if slots[n].dirty then [slots[n].sector] else []
  }

  lemma {:induction false} DirtyListed(slots: seq<Slot>, s: nat)
    ensures s in DirtySectors(slots) <==> exists i :: 0 <= i < |slots| && slots[i].dirty && slots[i].sector == s
    decreases |slots|
  {
    if slots != [] {
      var n := |slots| - 1;
      DirtyListed(slots[..n], s);
      assert forall i :: 0 <= i < n ==> slots[..n][i] == slots[i];
      if i :| 0 <= i < |slots| && slots[i].dirty && slots[i].sector == s {
        assert i < n ==> slots[..n][i].dirty && slots[..n][i].sector == s;
      }
    }
  }

  /** Every dirty sector is listed once, and nothing else. */
  lemma {:induction false} DirtyOnce(slots: seq<Slot>, i: nat, j: nat)
    requires Unique(slots) && (forall k :: 0 <= k < |slots| && slots[k].dirty ==> slots[k].valid)
    requires i < j < |DirtySectors(slots)|
    ensures DirtySectors(slots)[i] != DirtySectors(slots)[j]
    decreases |slots|
  {
    var n := |slots| - 1;
    var front := slots[..n];
    assert forall k :: 0 <= k < n ==> front[k] == slots[k];
    if j < |DirtySectors(front)| {
      DirtyOnce(front, i, j);
    } else {
      assert DirtySectors(slots)[i] in DirtySectors(front);
      DirtyListed(front, DirtySectors(slots)[i]);
    }
  }

  ghost predicate DirtyHolds(slots: seq<Slot>, s: nat) {
    exists i :: 0 <= i < |slots| && Holds(slots[i], s) && slots[i].dirty
  }

  /** The cached blocks are the flat disk's, and wherever the device differs from the flat disk
      a dirty slot has the newer block. */
  ghost predicate Shows(slots: seq<Slot>, dev: seq<Block>, flat: seq<Block>, region: set<nat>) {
    && |flat| == |dev|
    && (forall i :: 0 <= i < |slots| && slots[i].valid ==>
          slots[i].sector < |dev| && slots[i].sector in region && slots[i].block == flat[slots[i].sector])
    && (forall s :: 0 <= s < |dev| && s in region && flat[s] != dev[s] ==> DirtyHolds(slots, s))
  }

  /** What every step keeps, the hand aside. */
  ghost predicate Core(slots: seq<Slot>, dev: seq<Block>, flat: seq<Block>, region: set<nat>) {
    Shows(slots, dev, flat, region) && Unique(slots) && Prefix(slots)
  }

  /** The device moved only towards the flat disk, and only inside the region. */
  ghost predicate Settles(dev: seq<Block>, dev': seq<Block>, flat: seq<Block>, region: set<nat>) {
    && |dev'| == |dev| == |flat|
    && forall s :: 0 <= s < |dev| ==> dev'[s] == dev[s] || (s in region && dev'[s] == flat[s])
  }

  /** Same cached blocks; only the used and dirty marks may differ. */
  ghost predicate SameBlocks(a: seq<Slot>, b: seq<Slot>) {
    |a| == |b| && forall i :: 0 <= i < |a| ==>
      a[i].sector == b[i].sector && a[i].valid == b[i].valid && a[i].block == b[i].block
  }

  /** Writing back the dirty slot `i` and clearing its mark keeps the view. */
  lemma WriteBackShows(slots: seq<Slot>, dev: seq<Block>, flat: seq<Block>, region: set<nat>, i: nat)
    requires Shows(slots, dev, flat, region) && Unique(slots)
    requires i < |slots| && slots[i].valid
    ensures var dev' := dev[slots[i].sector := slots[i].block];
            Shows(slots[i := slots[i].(dirty := false)], dev', flat, region)
            && Settles(dev, dev', flat, region)
  {
    var slots' := slots[i := slots[i].(dirty := false)];
    var dev' := dev[slots[i].sector := slots[i].block];
    forall s | 0 <= s < |dev'| && s in region && flat[s] != dev'[s]
      ensures DirtyHolds(slots', s)
    {
      var j :| 0 <= j < |slots| && Holds(slots[j], s) && slots[j].dirty;
      assert slots'[j] == slots[j];
    }
  }

  /** Refilling a free or clean slot with an uncached sector keeps the view. */
  lemma RefillShows(slots: seq<Slot>, dev: seq<Block>, flat: seq<Block>, region: set<nat>, i: nat, s: nat)
    requires Shows(slots, dev, flat, region) && i < |slots| && s < |dev| && s in region
    requires !slots[i].dirty
    requires forall j :: 0 <= j < |slots| ==> !Holds(slots[j], s)
    ensures Shows(slots[i := Slot(s, false, true, true, dev[s])], dev, flat, region)
  {
    var slots' := slots[i := Slot(s, false, true, true, dev[s])];
    assert flat[s] == dev[s];
    forall t | 0 <= t < |dev| && t in region && flat[t] != dev[t]
      ensures DirtyHolds(slots', t)
    {
      var j :| 0 <= j < |slots| && Holds(slots[j], t) && slots[j].dirty;
      assert slots'[j] == slots[j];
    }
  }

  /** Marking slot `i` dirty with a new block is a write of the flat disk. */
  lemma StoreShows(slots: seq<Slot>, dev: seq<Block>, flat: seq<Block>, region: set<nat>, i: nat, b: Block)
    requires Shows(slots, dev, flat, region) && Unique(slots) && i < |slots| && slots[i].valid
    ensures Shows(slots[i := slots[i].(block := b, dirty := true)], dev, flat[slots[i].sector := b], region)
  {
    var slots' := slots[i := slots[i].(block := b, dirty := true)];
    var flat' := flat[slots[i].sector := b];
    assert Holds(slots'[i], slots[i].sector) && slots'[i].dirty;
    forall t | 0 <= t < |dev| && t in region && flat'[t] != dev[t]
      ensures DirtyHolds(slots', t)
    {
      if t != slots[i].sector {
        var j :| 0 <= j < |slots| && Holds(slots[j], t) && slots[j].dirty;
        assert slots'[j] == slots[j];
      }
    }
  }

  /** Overwriting a sector on the device, with any cached copy replaced and marked clean, is a
      write of the flat disk. */
  lemma WriteThroughShows(slots: seq<Slot>, slots': seq<Slot>, dev: seq<Block>, flat: seq<Block>, region: set<nat>,
                          s: nat, b: Block)
    requires Shows(slots, dev, flat, region) && s < |dev| && s in region && |slots'| == |slots|
    requires forall i :: 0 <= i < |slots| ==>
               if Holds(slots[i], s) then slots'[i].valid && slots'[i].sector == s && slots'[i].block == b
               else slots'[i] == slots[i]
    ensures Shows(slots', dev[s := b], flat[s := b], region)
  {
    forall t | 0 <= t < |dev| && t in region && flat[s := b][t] != dev[s := b][t]
      ensures DirtyHolds(slots', t)
    {
      var j :| 0 <= j < |slots| && Holds(slots[j], t) && slots[j].dirty;
      assert slots'[j] == slots[j];
    }
  }

  /** The slots a hand starting at `start` has passed after `k` steps, in a ring of `n`. */
  predicate Passed(start: nat, k: nat, n: nat, j: nat) {
    start <= j < start + k || j + n < start + k
  }

  function NextHand(i: nat, n: nat): nat { if i + 1 == n then 0 else i + 1 }

  /** Where the clock stands after giving `k` slots, from `start` on, a second chance. */
  ghost predicate Swept(slots: seq<Slot>, was: seq<Slot>, start: nat, k: nat, hand: nat) {
    && k <= |slots| && start < |slots|
    && hand == (if start + k < |slots| then start + k else start + k - |slots|)
    && HandOk(slots, hand)
    && SameBlocks(slots, was)
    && forall j :: 0 <= j < |slots| && Passed(start, k, |slots|, j) ==> !slots[j].used
  }

  lemma SweptStep(slots: seq<Slot>, was: seq<Slot>, start: nat, k: nat, hand: nat)
    requires Swept(slots, was, start, k, hand) && slots[hand].valid && slots[hand].used
    ensures Swept(slots[hand := slots[hand].(used := false)], was, start, k + 1, NextHand(hand, |slots|))
  {
    assert k < |slots| by {
      if k == |slots| { assert Passed(start, k, |slots|, hand); }
    }
  }

  class SlotCache {
    const slots: array<Slot>
    var hand: nat
    ghost const region: set<nat>

    /** The whole invariant: a view of `flat` over `dev`, no duplicates, valid slots first. */
    ghost predicate Valid(dev: seq<Block>, flat: seq<Block>)
      reads this, slots
    {
      && Core(slots[..], dev, flat, region)
      && HandOk(slots[..], hand)
    }

    constructor (n: nat, size: nat, ghost region: set<nat>)
      requires n > 0
      ensures this.region == region && slots.Length == n && fresh(slots)
      ensures forall dev: seq<Block> :: Valid(dev, dev)
    {
      var zeros: Block := seq(size, i => 0);
      slots := new Slot[n](i => Slot(0, false, false, false, zeros));
      hand := 0;
      this.region := region;
    }

    /** Finds the slot of a sector and leaves the hand on it; on a miss the hand makes a full
        turn and ends where it started. */
    method CacheHit(s: nat) returns (r: Option<nat>)
      requires HandOk(slots[..], hand) && Prefix(slots[..])
      modifies this`hand, slots
      ensures HandOk(slots[..], hand)
      ensures r.Some? ==>
                && r.value == hand
                && Holds(old(slots[..])[hand], s)
                && slots[..] == old(slots[..])[hand := old(slots[..])[hand].(used := true)]
      ensures r.None? ==>
                && hand == old(hand) && slots[..] == old(slots[..])
                && forall i :: 0 <= i < slots.Length ==> !Holds(slots[i], s)
    {
      var n := slots.Length;
      var start := hand;
      for k := 0 to n
        invariant hand == if start + k < n then start + k else start + k - n
        invariant hand < n || k == n
        invariant slots[..] == old(slots[..])
        invariant forall j :: 0 <= j < n && Passed(start, k, n, j) ==> !Holds(slots[j], s)
      {
        if slots[hand].sector == s && slots[hand].valid {
          slots[hand] := slots[hand].(used := true);
          return Some(hand);
        }
        hand := hand + 1;
        if hand == n {
          hand := 0;
        }
      }
      r := None;
    }

    /** Writes a slot back to the device and marks it clean. */
    method WriteBack(dev: Device, i: nat, ghost flat: seq<Block>)
      requires Core(slots[..], dev.blocks, flat, region) && i < slots.Length && slots[i].valid
      modifies slots, dev
      ensures Core(slots[..], dev.blocks, flat, region)
      ensures slots[..] == old(slots[..])[i := old(slots[..])[i].(dirty := false)]
      ensures Settles(old(dev.blocks), dev.blocks, flat, region)
      ensures dev.log == old(dev.log) + [old(slots[i].sector)]
    {
      WriteBackShows(slots[..], dev.blocks, flat, region, i);
      dev.Write(slots[i].sector, slots[i].block);
      slots[i] := slots[i].(dirty := false);
      assert slots[..] == old(slots[..])[i := old(slots[..])[i].(dirty := false)];
    }

    /** Takes away a slot's recently-used mark. */
    method ClearUsed(i: nat, ghost dev: seq<Block>, ghost flat: seq<Block>)
      requires Core(slots[..], dev, flat, region) && i < slots.Length
      modifies slots
      ensures Core(slots[..], dev, flat, region)
      ensures slots[..] == old(slots[..])[i := old(slots[..])[i].(used := false)]
    {
      slots[i] := slots[i].(used := false);
      assert slots[..] == old(slots[..])[i := old(slots[..])[i].(used := false)];
      UsedShows(old(slots[..]), slots[..], dev, flat, region, i);
    }

    /** Passes over the used slots, taking their marks away. */
    method Sweep(ghost dev: seq<Block>, ghost flat: seq<Block>) returns (ghost steps: nat)
      requires Core(slots[..], dev, flat, region) && HandOk(slots[..], hand)
      modifies this`hand, slots
      ensures Core(slots[..], dev, flat, region) && SameBlocks(slots[..], old(slots[..]))
      ensures HandOk(slots[..], hand) && steps <= slots.Length && !(slots[hand].valid && slots[hand].used)
    {
      hide Core;
      ghost var start := hand;
      steps := 0;
      while slots[hand].valid && slots[hand].used
        invariant Swept(slots[..], old(slots[..]), start, steps, hand)
        invariant Core(slots[..], dev, flat, region)
        decreases slots.Length - steps
      {
        SweptStep(slots[..], old(slots[..]), start, steps, hand);
        ClearUsed(hand, dev, flat);
        hand := NextHand(hand, slots.Length);
        steps := steps + 1;
      }
    }

    /** Picks the slot to reuse. Used slots get a second chance, a dirty victim is written back
        first, and at most N + 1 slots are looked at. */
    method ChooseVictim(dev: Device, ghost flat: seq<Block>) returns (i: nat, ghost steps: nat)
      requires Valid(dev.blocks, flat)
      modifies this`hand, slots, dev
      ensures i < slots.Length && steps <= slots.Length + 1
      ensures hand == NextHand(i, slots.Length)
      ensures SameBlocks(slots[..], old(slots[..]))
      ensures Core(slots[..], dev.blocks, flat, region)
      ensures forall j :: 0 <= j < i ==> slots[j].valid
      ensures slots[i].valid ==> !slots[i].dirty
      ensures Settles(old(dev.blocks), dev.blocks, flat, region)
    {
      steps := Sweep(dev.blocks, flat);
      i := hand;
      hand := NextHand(hand, slots.Length);
      steps := steps + 1;
      if slots[i].valid && slots[i].dirty {
        WriteBack(dev, i, flat);
      }
    }

    /** `read_inner`: brings a sector into the cache. The flat disk does not change, and the
        returned slot holds what the flat disk has there. */
    method ReadInner(dev: Device, s: nat, ghost flat: seq<Block>) returns (i: nat)
      requires Valid(dev.blocks, flat) && s < |dev.blocks| && s in region
      modifies this`hand, slots, dev
      ensures Valid(dev.blocks, flat)
      ensures i < slots.Length && Holds(slots[i], s) && slots[i].block == flat[s]
      ensures Settles(old(dev.blocks), dev.blocks, flat, region)
    {
      ghost var before := slots[..];
      var hit := CacheHit(s);
      if hit.Some? {
        UsedShows(before, slots[..], dev.blocks, flat, region, hit.value);
        return hit.value;
      }
      ghost var steps;
      i, steps := ChooseVictim(dev, flat);
      var block := dev.Read(s);
      RefillShows(slots[..], dev.blocks, flat, region, i, s);
      ghost var mid := slots[..];
      slots[i] := Slot(s, slots[i].dirty, true, true, block);
      assert slots[..] == mid[i := Slot(s, false, true, true, block)];
    }

    /** `as_mut_slice` and a store through it, on a slot that `read_mut` returned. */
    method Store(i: nat, b: Block, ghost dev: seq<Block>, ghost flat: seq<Block>)
      requires Valid(dev, flat) && i < slots.Length && slots[i].valid
      modifies slots
      ensures Valid(dev, flat[old(slots[i].sector) := b])
    {
      StoreShows(slots[..], dev, flat, region, i, b);
      ghost var before := slots[..];
      slots[i] := slots[i].(block := b, dirty := true);
      assert slots[..] == before[i := before[i].(block := b, dirty := true)];
    }

    /** Writes a whole block to the device, replacing any cached copy. */
    method Write(dev: Device, s: nat, b: Block, ghost flat: seq<Block>)
      requires Valid(dev.blocks, flat) && s < |dev.blocks| && s in region
      modifies this`hand, slots, dev
      ensures Valid(dev.blocks, flat[s := b])
      ensures dev.blocks == old(dev.blocks)[s := b]
    {
      ghost var before := slots[..];
      var hit := CacheHit(s);
      if hit.Some? {
        var i := hit.value;
        slots[i] := slots[i].(block := b, dirty := false);
      }
      dev.Write(s, b);
      WriteThroughShows(before, slots[..], old(dev.blocks), flat, region, s, b);
    }

    /** `Slot::flush` on slot `i`. */
    method FlushSlot(dev: Device, i: nat, ghost flat: seq<Block>)
      requires Valid(dev.blocks, flat) && i < slots.Length
      modifies slots, dev
      ensures Valid(dev.blocks, flat)
      ensures slots[..] == old(slots[..])[i := old(slots[..])[i].(dirty := false)]
      ensures Settles(old(dev.blocks), dev.blocks, flat, region)
      ensures dev.log == old(dev.log) + if old(slots[i].dirty) then [old(slots[i].sector)] else []
    {
      if slots[i].dirty {
        WriteBack(dev, i, flat);
      }
    }

    /** After a flush the device agrees with the flat disk on the whole region. Exactly the dirty sectors
        were written, in slot order. */
    method Flush(dev: Device, ghost flat: seq<Block>)
      requires Valid(dev.blocks, flat)
      modifies slots, dev
      ensures Valid(dev.blocks, flat)
      ensures Settles(old(dev.blocks), dev.blocks, flat, region)
      ensures forall s :: 0 <= s < |flat| && s in region ==> dev.blocks[s] == flat[s]
      ensures dev.log == old(dev.log) + DirtySectors(old(slots[..]))
    {
      ghost var was := slots[..];
      for i := 0 to slots.Length
        invariant Valid(dev.blocks, flat) && dev.log == old(dev.log) + DirtySectors(was[..i])
        invariant forall j :: i <= j < slots.Length ==> slots[j] == was[j]
        invariant Settles(old(dev.blocks), dev.blocks, flat, region)
        invariant forall j :: 0 <= j < i ==> !slots[j].dirty
      {
        assert was[..i + 1][..i] == was[..i];
        FlushSlot(dev, i, flat);
      }
      assert was[..slots.Length] == was;
    }

    /** After flushing one sector the device agrees with the flat disk there; only that sector was
        written, and only if it was dirty. The search looks at sector numbers only, not at validity; it
        still finds the right slot because valid slots come first. */
    method FlushSector(dev: Device, s: nat, ghost flat: seq<Block>)
      requires Valid(dev.blocks, flat) && s < |flat| && s in region
      modifies slots, dev
      ensures Valid(dev.blocks, flat)
      ensures Settles(old(dev.blocks), dev.blocks, flat, region)
      ensures dev.blocks[s] == flat[s]
      ensures dev.log == old(dev.log) + if DirtyHolds(old(slots[..]), s) then [s] else []
    {
      for i := 0 to slots.Length
        invariant Valid(dev.blocks, flat) && dev.blocks == old(dev.blocks)
        invariant slots[..] == old(slots[..]) && dev.log == old(dev.log)
        invariant forall j :: 0 <= j < i ==> slots[j].sector != s
      {
        if slots[i].sector == s {
          FlushSlot(dev, i, flat);
          break;
        }
      }
    }
  }

  lemma UsedShows(slots: seq<Slot>, slots': seq<Slot>, dev: seq<Block>, flat: seq<Block>, region: set<nat>, i: nat)
    requires Shows(slots, dev, flat, region) && Unique(slots) && Prefix(slots) && i < |slots|
    requires exists u :: slots' == slots[i := slots[i].(used := u)]
    ensures Shows(slots', dev, flat, region) && Unique(slots') && Prefix(slots') && SameBlocks(slots', slots)
  {
    forall t | 0 <= t < |dev| && t in region && flat[t] != dev[t]
      ensures DirtyHolds(slots', t)
    {
      var j :| 0 <= j < |slots| && Holds(slots[j], t) && slots[j].dirty;
      assert Holds(slots'[j], t) && slots'[j].dirty;
    }
  }
}
