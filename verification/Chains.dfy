/** Cluster chains: the shapes a file's chain is held in, the clusters each shape stands for, and
    the bytes read through a sequence of clusters. */
module Chains {
  import opened Bytes
  import opened Disk
  import opened Results

  datatype StoredChain =
    | Empty
    | Contiguous(first: nat, count: nat)
    | Fat(first: nat, last: nat, count: nat)

  ghost function RunSeq(first: nat, count: nat): (s: seq<nat>)
    ensures |s| == count
    ensures forall i :: 0 <= i < count ==> s[i] == first + i
  {
    seq(count, i => first + i)
  }

  ghost function SetOf(cs: seq<nat>): set<nat> { set c | c in cs }

  ghost predicate Distinct(cs: seq<nat>) {
    forall i, j :: 0 <= i < j < |cs| ==> cs[i] != cs[j]
  }

  /** Cluster ids that the FAT has entries for. */
  ghost predicate InHeap(cs: seq<nat>, end: nat) {
    forall i :: 0 <= i < |cs| ==> FIRST_CLUSTER_ID <= cs[i] < end
  }

  /** What the FAT entry of the `i`-th cluster should hold in a chain that goes on with `next`. */
  ghost function After(cs: seq<nat>, i: nat, next: nat): nat
    requires i < |cs|
  {
    if i + 1 < |cs| then cs[i + 1] else next
  }

  /** Every cluster's FAT entry names the next cluster, and the last one ends the chain. */
  ghost predicate Linked(fat: seq<nat>, cs: seq<nat>)
    requires InHeap(cs, |fat|)
  {
    forall i :: 0 <= i < |cs| ==> fat[cs[i]] == After(cs, i, END_OF_CHAIN)
  }

  /** `chain`, together with the NoFatChain flag, stands for the clusters `cs`. Whenever the flag
      is clear the FAT links them, also for a chain held as Contiguous. */
  ghost predicate Rep(fat: seq<nat>, chain: StoredChain, noFat: bool, cs: seq<nat>) {
    && Distinct(cs) && InHeap(cs, |fat|)
    && (!noFat ==> Linked(fat, cs))
    && match chain
       case Empty => cs == []
       case Contiguous(first, count) => count > 0 && cs == RunSeq(first, count)
       case Fat(first, last, count) => !noFat && count > 0 && |cs| == count && cs[0] == first && cs[count - 1] == last
  }

  /** `next_cluster_in_fat_chain` on the value of an entry. */
  function NextOf(e: nat): Option<nat> {
    if FIRST_CLUSTER_ID <= e <= MAX_CLUSTER_ID then Some(e) else None
  }

  /** The clusters met by following FAT entries from `c`, at most `n` of them. */
  ghost function Walk(fat: seq<nat>, c: nat, n: nat): seq<nat>
    decreases n
  {
    if n == 0 then []
    else if c >= |fat| then [c]
    else match NextOf(fat[c])
         case None => [c]
         case Some(d) => [c] + Walk(fat, d, n - 1)
  }

  lemma WalkStep(fat: seq<nat>, c: nat, n: nat)
    requires c < |fat| && n > 0
    ensures Walk(fat, c, n) ==
              match NextOf(fat[c])
              case None => [c]
              case Some(d) => [c] + Walk(fat, d, n - 1)
  {
  }

  lemma LinkedTail(fat: seq<nat>, cs: seq<nat>)
    requires InHeap(cs, |fat|) && Linked(fat, cs) && |cs| > 0
    ensures InHeap(cs[1..], |fat|) && Linked(fat, cs[1..])
  {
    var rest := cs[1..];
    forall i | 0 <= i < |rest| ensures fat[rest[i]] == After(rest, i, END_OF_CHAIN) {
      var j := i + 1;
      assert fat[cs[j]] == After(cs, j, END_OF_CHAIN);
    }
  }

  /** Walking the FAT of a linked chain from its first cluster yields exactly its clusters, and
      stops there however far one is willing to go. */
  lemma {:induction false} WalkYields(fat: seq<nat>, cs: seq<nat>, n: nat)
    requires InHeap(cs, |fat|) && Linked(fat, cs) && 0 < |cs| <= n && |fat| <= MAX_CLUSTER_ID + 1
    ensures Walk(fat, cs[0], n) == cs
    decreases n
  {
    hide Walk;
    WalkStep(fat, cs[0], n);
    assert fat[cs[0]] == After(cs, 0, END_OF_CHAIN);
    if |cs| > 1 {
      LinkedTail(fat, cs);
      WalkYields(fat, cs[1..], n - 1);
    }
  }

  /** Changes outside the chain's clusters leave what it stands for alone. */
  lemma RepFrame(fat: seq<nat>, fat': seq<nat>, chain: StoredChain, noFat: bool, cs: seq<nat>)
    requires Rep(fat, chain, noFat, cs) && |fat'| == |fat|
    requires forall c :: c in cs ==> fat'[c] == fat[c]
    ensures Rep(fat', chain, noFat, cs)
  {
  }

  /** Linking a contiguous run as `convert_file_to_fat_chain_if_required` and `update_chain` do:
      `fat'` joins `cs` and the run behind it. */
  lemma AppendLinked(fat': seq<nat>, cs: seq<nat>, run: seq<nat>)
    requires InHeap(cs, |fat'|) && InHeap(run, |fat'|) && |run| > 0
    requires forall i :: 0 <= i < |cs| ==> fat'[cs[i]] == After(cs, i, run[0])
    requires Linked(fat', run)
    ensures InHeap(cs + run, |fat'|) && Linked(fat', cs + run)
  {
    var all := cs + run;
    forall i | 0 <= i < |all|
      ensures fat'[all[i]] == After(all, i, END_OF_CHAIN)
    {
      if i >= |cs| {
        var j := i - |cs|;
        assert fat'[run[j]] == After(run, j, END_OF_CHAIN);
      } else {
        assert fat'[cs[i]] == After(cs, i, run[0]);
      }
    }
  }

  // ---- bytes through a chain ----------------------------------------------------

  /** All clusters of the chain hold `cl` bytes. */
  ghost predicate Backed(data: seq<seq<byte>>, cs: seq<nat>, cl: nat) {
    forall i :: 0 <= i < |cs| ==> cs[i] < |data| && |data[cs[i]]| == cl
  }

  ghost function RawByte(data: seq<seq<byte>>, cs: seq<nat>, cl: nat, p: nat): byte
    requires 0 < cl && Backed(data, cs, cl) && p < |cs| * cl
  {
    DivLess(p, cl, |cs|);
    data[cs[p / cl]][p % cl]
  }

  /** The chain's bytes in order, up to the end of its last cluster. */
  ghost function Raw(data: seq<seq<byte>>, cs: seq<nat>, cl: nat): (r: seq<byte>)
    requires 0 < cl && Backed(data, cs, cl)
    ensures |r| == |cs| * cl
    ensures forall p :: 0 <= p < |r| ==> r[p] == RawByte(data, cs, cl, p)
  {
    seq(|cs| * cl, p requires 0 <= p < |cs| * cl => RawByte(data, cs, cl, p))
  }

  /** Overwriting bytes inside the cluster at index `q` overwrites that part of the chain's bytes. */
  lemma RawStore(data: seq<seq<byte>>, cs: seq<nat>, cl: nat, q: nat, o: nat, x: seq<byte>)
    requires 0 < cl && Backed(data, cs, cl) && Distinct(cs) && q < |cs| && o + |x| <= cl
    ensures q * cl + o + |x| <= |cs| * cl
    ensures var data' := data[cs[q] := Splice(data[cs[q]], o, x)];
            Backed(data', cs, cl) && Raw(data', cs, cl) == Splice(Raw(data, cs, cl), q * cl + o, x)
  {
    var data' := data[cs[q] := Splice(data[cs[q]], o, x)];
    MulMono(q + 1, |cs|, cl);
    assert (q + 1) * cl == q * cl + cl;
    var a := q * cl + o;
    forall p: nat | p < |cs| * cl
      ensures RawByte(data', cs, cl, p) == if a <= p < a + |x| then x[p - a] else RawByte(data, cs, cl, p)
    {
      DivLess(p, cl, |cs|);
      DivModFacts(p, cl);
      if p / cl == q {
        assert p - a == p % cl - o;
      } else if p / cl < q {
        MulMono(p / cl + 1, q, cl);
        assert (p / cl + 1) * cl == (p / cl) * cl + cl;
      } else {
        MulMono(q + 1, p / cl, cl);
      }
    }
  }

  /** Bytes elsewhere do not matter. */
  lemma RawFrame(data: seq<seq<byte>>, data': seq<seq<byte>>, cs: seq<nat>, cl: nat)
    requires 0 < cl && Backed(data, cs, cl) && |data'| == |data|
    requires forall c :: c in cs ==> data'[c] == data[c]
    ensures Backed(data', cs, cl) && Raw(data', cs, cl) == Raw(data, cs, cl)
  {
    forall i | 0 <= i < |cs| ensures data'[cs[i]] == data[cs[i]] {
      assert cs[i] in cs;
    }
    forall p: nat | p < |cs| * cl ensures RawByte(data', cs, cl, p) == RawByte(data, cs, cl, p) {
      DivLess(p, cl, |cs|);
    }
  }

  /** A longer chain starts with the bytes of the shorter one. */
  lemma RawPrefix(data: seq<seq<byte>>, cs: seq<nat>, more: seq<nat>, cl: nat)
    requires 0 < cl && Backed(data, cs + more, cl)
    ensures Backed(data, cs, cl) && |cs| * cl <= |cs + more| * cl
    ensures Raw(data, cs + more, cl)[..|cs| * cl] == Raw(data, cs, cl)
  {
    forall i | 0 <= i < |cs| ensures cs[i] < |data| && |data[cs[i]]| == cl {
      assert cs[i] == (cs + more)[i];
    }
    MulMono(|cs|, |cs + more|, cl);
    forall p: nat | p < |cs| * cl ensures RawByte(data, cs + more, cl, p) == RawByte(data, cs, cl, p) {
      DivLess(p, cl, |cs|);
    }
  }
}
