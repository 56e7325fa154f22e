/** What a write does to a file's contents as a reader sees them. */
module Contents {
  import opened Bytes
  import opened Chains
  import opened Disk
  import opened FileData

  /** `x` written over `s` from `at` on, extending it if need be. */
  function WriteAt<T>(s: seq<T>, at: nat, x: seq<T>): (r: seq<T>)
    requires at <= |s|
  {
    s[..at] + x + if at + |x| < |s| then s[at + |x|..] else []
  }

  /** The stored bytes between the valid length and the cursor happen to be zero; vacuous when the
      cursor is within the valid length. */
  ghost predicate GapClean(raw: seq<byte>, valid: nat, at: nat) {
    forall p :: valid <= p < at && p < |raw| ==> raw[p] == 0
  }

  /** Splicing into the stored bytes and updating the lengths writes into the visible contents,
      exactly when no stale byte lies between the valid length and the cursor. In particular it
      does whenever the cursor is within the valid length. */
  lemma SeenAfterWrite(raw0: seq<byte>, raw: seq<byte>, f: FileDetails, at: nat, x: seq<byte>)
    requires |raw0| <= |raw| && raw0 == raw[..|raw0|]
    requires f.validDataLength <= f.dataLength <= |raw0| && at <= f.dataLength
    requires 0 < |x| && at + |x| <= |raw|
    ensures Longer(f, at + |x|).dataLength <= |raw|
    ensures Seen(Splice(raw, at, x), Longer(f, at + |x|)) == WriteAt(Seen(raw0, f), at, x)
            <==> GapClean(raw0, f.validDataLength, at)
  {
    var s := Seen(Splice(raw, at, x), Longer(f, at + |x|));
    var t := WriteAt(Seen(raw0, f), at, x);
    assert |s| == |t|;
    assert forall p :: 0 <= p < |s| && !(f.validDataLength <= p < at) ==> s[p] == t[p];
    assert forall p :: f.validDataLength <= p < at ==> s[p] == raw0[p] && t[p] == 0;
  }

  /** One byte of stale data in a file of one byte and one cluster, nothing of it valid: reading moves
      the cursor past it, and a write behind it makes it visible. */
  lemma StaleByteShows()
    ensures var g, f := SmallVolume(), FileDetails(2, 1, 0, true, true, Location(0, 0), 2);
            var raw: seq<byte> := [7] + seq(511, i => 0);
            && g.Valid() && |raw| == ClustersFor(f.dataLength, g) * g.ClusterLength() && !GapClean(raw, f.validDataLength, 1)
            && Seen(Splice(raw, 1, [9]), Longer(f, 2)) != WriteAt(Seen(raw, f), 1, [9])
  {
    var g, f := SmallVolume(), FileDetails(2, 1, 0, true, true, Location(0, 0), 2);
    var raw: seq<byte> := [7] + seq(511, i => 0);
    assert raw[0] == 7;
    assert ClustersFor(1, g) == 1;
    SeenAfterWrite(raw, raw, f, 1, [9]);
  }

  /** A successful write of an open file, on the contents of the file: they become the old contents
      with the buffer written at the cursor, exactly when the gap (if any) is clean. */
  lemma VisibleAfterWrite(d: seq<Block>, d': seq<Block>, g: Geometry, cs: seq<nat>, cs': seq<nat>, f: FileDetails,
                          f': FileDetails, at: nat, x: seq<byte>)
    requires g.Valid() && Good(d, g) && Good(d', g) && AllStore(g, cs')
    requires cs <= cs' && |cs| == ClustersFor(f.dataLength, g) && f.validDataLength <= f.dataLength
    requires at <= f.dataLength && 0 < |x|
    requires SplicedIn(g, Abs(d, g), Abs(d', g), cs', at, x)
    requires f' == Longer(f, at + |x|).(noFat := f'.noFat) && |cs'| == ClustersFor(f'.dataLength, g)
    ensures AllStore(g, cs)
    ensures f.dataLength <= |cs| * g.ClusterLength() && 0 < g.ClusterLength()
    ensures Backed(Abs(d, g).data, cs, g.ClusterLength())
    ensures Visible(d', g, cs', f') == WriteAt(Visible(d, g, cs, f), at, x)
            <==> GapClean(Raw(Abs(d, g).data, cs, g.ClusterLength()), f.validDataLength, at)
  {
    var cl := g.ClusterLength();
    LengthPositive(g);
    assert cs' == cs + cs'[|cs|..];
    assert forall c :: c in cs ==> c in cs';
    StoresBacked(d, g, cs');
    StoresBacked(d', g, cs');
    StoresBacked(d, g, cs);
    RawPrefix(Abs(d, g).data, cs, cs'[|cs|..], cl);
    CeilBound(f.dataLength, cl);
    SeenAfterWrite(Raw(Abs(d, g).data, cs, cl), Raw(Abs(d, g).data, cs', cl), f, at, x);
    assert Visible(d', g, cs', f') == Seen(Splice(Raw(Abs(d, g).data, cs', cl), at, x), Longer(f, at + |x|));
  }
}
