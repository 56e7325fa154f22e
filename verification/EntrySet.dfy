/** A directory as a sequence of 32-byte entries: the entry sets in it, what they say, and what
    adding, rewriting and removing a set does to them (src/directory_entry.rs:519-608,
    src/file_system.rs:668-810 and 890-924). */
module EntrySet {
  import opened Bytes
  import opened DirEntry
  import opened Names
  import opened Results

  // ---- sets ------------------------------------------------------------------------------

  /** How many entries the set that starts at `k` has. */
  function SetSize(es: seq<RawEntry>, k: nat): nat
    requires k < |es|
  {
    es[k][1] as nat + 1
  }

  /** A whole file entry set starts at `k`: a file entry, a stream extension, and as many file name
      entries as the name needs. */
  ghost predicate SetAt(es: seq<RawEntry>, k: nat) {
    && k < |es| && IsFile(es[k])
    && var n := SetSize(es, k);
    && 3 <= n && k + n <= |es|
    && IsStream(es[k + 1]) && es[k + 1][3] > 0 && n == SetLength(es[k + 1][3])
    && forall i :: k + 2 <= i < k + n ==> IsName(es[i])
  }

  /** Nothing in use follows an end marker. */
  ghost predicate EndsRight(es: seq<RawEntry>) {
    forall i, j :: 0 <= i < j < |es| && IsEndMarker(es[i]) ==> !InUse(es[j])
  }

  /** Every file entry starts a whole set, and nothing in use follows an end marker. */
  ghost predicate WellFormed(es: seq<RawEntry>) {
    && (forall k :: 0 <= k < |es| && IsFile(es[k]) ==> SetAt(es, k))
    && EndsRight(es)
  }

  datatype FileSet = FileSet(file: FileDirEntry, stream: StreamEntry, name: seq<u16>)

  /** Unit `j` of the name of the set at `k`. */
  function NameUnit(es: seq<RawEntry>, k: nat, j: nat): u16
    requires k + 2 + j / 15 < |es|
  {
    UnitAt(es[k + 2 + j / 15], j % 15)
  }

  function NameOf(es: seq<RawEntry>, k: nat): (name: seq<u16>)
    requires k + 1 < |es| && k + SetLength(es[k + 1][3]) <= |es|
    ensures |name| == es[k + 1][3]
  {
    seq(es[k + 1][3], j requires 0 <= j < es[k + 1][3] => NameUnit(es, k, j))
  }

  ghost function ParseSet(es: seq<RawEntry>, k: nat): FileSet
    requires SetAt(es, k)
  {
    FileSet(ParseFile(es[k]), ParseStream(es[k + 1]), NameOf(es, k))
  }

  /** The files and directories that a directory lists, by where their sets start. */
  ghost function Listing(es: seq<RawEntry>): (m: map<nat, FileSet>)
    requires WellFormed(es)
    ensures forall k :: k in m <==> 0 <= k < |es| && IsFile(es[k])
    ensures forall k :: k in m ==> SetAt(es, k) && m[k] == ParseSet(es, k)
  {
    map k: nat | k < |es| && IsFile(es[k]) :: ParseSet(es, k)
  }

  /** A set depends on its own entries alone. */
  lemma SetFrame(es: seq<RawEntry>, es': seq<RawEntry>, k: nat)
    requires SetAt(es, k) && |es'| == |es|
    requires forall i :: k <= i < k + SetSize(es, k) ==> es'[i] == es[i]
    ensures SetAt(es', k) && ParseSet(es', k) == ParseSet(es, k)
  {
    forall j: nat | j < es[k + 1][3] ensures NameUnit(es', k, j) == NameUnit(es, k, j) {
      assert k + 2 <= k + 2 + j / 15 < k + SetSize(es, k);
    }
  }

  lemma SetInUse(es: seq<RawEntry>, k: nat, i: nat)
    requires SetAt(es, k) && k <= i < k + SetSize(es, k)
    ensures InUse(es[i]) && (IsFile(es[i]) <==> i == k)
  {
  }

  /** Sets do not overlap. */
  lemma SetsApart(es: seq<RawEntry>, k: nat, j: nat)
    requires SetAt(es, k) && SetAt(es, j) && k < j
    ensures k + SetSize(es, k) <= j
  {
    if j < k + SetSize(es, k) {
      SetInUse(es, k, j);
    }
  }

  // ---- building a set -----------------------------------------------------------------------

  function NameEntries(name: seq<u16>): (r: seq<RawEntry>)
    ensures |r| == Ceil15(|name|)
  {
    seq(Ceil15(|name|), i requires 0 <= i < Ceil15(|name|) => SerializeName(0, Part(name, i)))
  }

  function BuildSet(file: FileDirEntry, stream: StreamEntry, name: seq<u16>): (r: seq<RawEntry>)
    ensures |r| == SetLength(|name|)
  {
    [SerializeFile(file), SerializeStream(stream)] + NameEntries(name)
  }

  /** Where a built set has been put, the same set is read back: every field and every unit of the
      name. */
  lemma BuildReadsBack(es: seq<RawEntry>, k: nat, file: FileDirEntry, stream: StreamEntry, name: seq<u16>)
    requires 0 < |name| < 256 && stream.nameLength == |name| && file.secondaryCount == SetLength(|name|) - 1
    requires k + SetLength(|name|) <= |es| && es[k..k + SetLength(|name|)] == BuildSet(file, stream, name)
    ensures SetAt(es, k) && SetSize(es, k) == SetLength(|name|)
    ensures ParseSet(es, k) == FileSet(file, stream, name)
  {
    hide SerializeFile, SerializeStream, SerializeName, ParseFile, ParseStream, UnitAt;
    var set_, n := BuildSet(file, stream, name), SetLength(|name|);
    assert forall i :: k <= i < k + n ==> es[i] == es[k..k + n][i - k];
    FileHeader(file);
    StreamHeader(stream);
    FileRoundTrip(file);
    StreamRoundTrip(stream);
    forall i | k + 2 <= i < k + n ensures IsName(es[i]) {
      assert es[i] == set_[i - k] == SerializeName(0, Part(name, i - k - 2));
    }
    forall j: nat | j < |name| ensures NameUnit(es, k, j) == name[j] {
      assert es[k + 2 + j / 15] == set_[2 + j / 15] == SerializeName(0, Part(name, j / 15));
      NameRoundTrip(0, Part(name, j / 15));
      assert ParseName(es[k + 2 + j / 15])[j % 15] == Part(name, j / 15)[j % 15];
    }
  }

  /** The length of a name and the number of its entries are stored in one byte each, of which nothing checks
      that it is enough: the name is read back exactly when it has at most 255 units. */
  lemma NameReadBack(es: seq<RawEntry>, k: nat, file: FileDirEntry, stream: StreamEntry, name: seq<u16>)
    requires 0 < |name| && stream.nameLength == |name| % 256 && file.secondaryCount == (SetLength(|name|) - 1) % 256
    requires k + SetLength(|name|) <= |es| && es[k..k + SetLength(|name|)] == BuildSet(file, stream, name)
    ensures SetAt(es, k) && ParseSet(es, k).name == name <==> |name| <= 255
  {
    hide SetAt, ParseSet, BuildSet, SetSize;
    if |name| <= 255 {
      var n := SetLength(|name|);
      assert n <= 19 && (n - 1) % 256 == n - 1 && |name| % 256 == |name|;
      BuildReadsBack(es, k, file, stream, name);
    } else if SetAt(es, k) {
      NameLength(es, k);
    }
  }

  lemma NameLength(es: seq<RawEntry>, k: nat)
    requires SetAt(es, k)
    ensures |ParseSet(es, k).name| <= 255
  {
  }

  /** A name of 256 letters leaves no set behind that could be read. */
  lemma LongNameLost(file: FileDirEntry, stream: StreamEntry)
    requires stream.nameLength == 0 && file.secondaryCount == 19
    ensures !SetAt(BuildSet(file, stream, seq(256, i => 0x41)), 0)
  {
    hide SerializeFile, SerializeName;
    StreamHeader(stream);
  }

  lemma FileHeader(file: FileDirEntry)
    ensures SerializeFile(file)[1] == file.secondaryCount
  {
  }

  lemma StreamHeader(stream: StreamEntry)
    ensures SerializeStream(stream)[3] == stream.nameLength
  {
  }

  // ---- adding, rewriting, removing -------------------------------------------------------------

  /** `n` entries from `k` on are free. */
  ghost predicate FreeEntries(es: seq<RawEntry>, k: nat, n: nat) {
    k + n <= |es| && forall i :: k <= i < k + n ==> !InUse(es[i])
  }

  /** The first place where `n` entries are free. */
  ghost predicate FirstFit(es: seq<RawEntry>, k: nat, n: nat) {
    FreeEntries(es, k, n) && forall j: nat :: j < k ==> !FreeEntries(es, j, n)
  }

  /** First fit never leaves an end marker behind. */
  lemma FirstFitBeforeEnd(es: seq<RawEntry>, k: nat, n: nat)
    requires WellFormed(es) && FirstFit(es, k, n)
    ensures forall i :: 0 <= i < k ==> !IsEndMarker(es[i])
  {
    assert forall i: nat :: i < k && IsEndMarker(es[i]) ==> FreeEntries(es, i, n);
  }

  /** End markers are free, file entries are not. */
  lemma InUseFacts(r: RawEntry)
    ensures IsEndMarker(r) ==> !InUse(r) && !IsFile(r)
    ensures IsFile(r) ==> InUse(r)
  {
  }

  /** All sets but the one at `k` lie outside the `n` entries from `k` on. */
  ghost predicate OthersOutside(es: seq<RawEntry>, k: nat, n: nat) {
    forall j :: 0 <= j < |es| && IsFile(es[j]) && j != k ==> SetAt(es, j) && (j + SetSize(es, j) <= k || k + n <= j)
  }

  ghost predicate ChangedWithin(es: seq<RawEntry>, es': seq<RawEntry>, k: nat, n: nat) {
    && |es'| == |es| && 0 < n && k + n <= |es|
    && forall i :: 0 <= i < |es| && !(k <= i < k + n) ==> es'[i] == es[i]
  }

  /** Changing entries that belong to no set but the one at `k` changes the listing at `k` alone. */
  lemma Reshape(es: seq<RawEntry>, es': seq<RawEntry>, k: nat, n: nat)
    requires WellFormed(es) && ChangedWithin(es, es', k, n) && OthersOutside(es, k, n) && EndsRight(es')
    requires forall i :: k < i < k + n ==> !IsFile(es'[i])
    requires IsFile(es'[k]) ==> SetAt(es', k)
    ensures WellFormed(es')
    ensures Listing(es') == if IsFile(es'[k]) then Listing(es)[k := ParseSet(es', k)] else Listing(es) - {k}
  {
    hide ParseSet, SetAt, IsFile, IsEndMarker, InUse;
    forall j: nat | j < |es| && j != k && IsFile(es'[j])
      ensures IsFile(es[j]) && SetAt(es', j) && ParseSet(es', j) == ParseSet(es, j)
    {
      SetBounds(es, j);
      SetFrame(es, es', j);
    }
    forall j: nat | j < |es| && j != k && IsFile(es[j]) ensures IsFile(es'[j]) {
      SetBounds(es, j);
    }
  }

  lemma SetBounds(es: seq<RawEntry>, j: nat)
    ensures SetAt(es, j) ==> j < |es| && 3 <= SetSize(es, j) && j + SetSize(es, j) <= |es|
  {
  }

  /** The sets of a directory lie outside its free entries. */
  lemma FreeOutside(es: seq<RawEntry>, k: nat, n: nat)
    requires WellFormed(es) && FreeEntries(es, k, n) && n > 0
    ensures OthersOutside(es, k, n)
  {
    forall j: nat | j < |es| && IsFile(es[j]) ensures j + SetSize(es, j) <= k || k + n <= j {
      var i := if j < k then k else j;
      if i < j + SetSize(es, j) {
        SetInUse(es, j, i);
      }
    }
  }

  lemma SetOutside(es: seq<RawEntry>, k: nat)
    requires WellFormed(es) && SetAt(es, k)
    ensures OthersOutside(es, k, SetSize(es, k))
  {
    forall j: nat | j < |es| && IsFile(es[j]) && j != k ensures j + SetSize(es, j) <= k || k + SetSize(es, k) <= j {
      if j < k { SetsApart(es, j, k); } else { SetsApart(es, k, j); }
    }
  }

  /** Adding a set at the first fit adds exactly that file to the listing; all other entries are
      byte for byte as they were, and still nothing in use follows an end marker. */
  lemma AddSet(es: seq<RawEntry>, k: nat, set_: seq<RawEntry>)
    requires WellFormed(es) && FirstFit(es, k, |set_|) && SetAt(Splice(es, k, set_), k)
    requires SetSize(Splice(es, k, set_), k) == |set_|
    ensures WellFormed(Splice(es, k, set_))
    ensures k !in Listing(es)
    ensures Listing(Splice(es, k, set_)) == Listing(es)[k := ParseSet(Splice(es, k, set_), k)]
  {
    hide ParseSet, IsFile, IsEndMarker, InUse, SetAt;
    var es', n := Splice(es, k, set_), |set_|;
    SetBounds(es', k);
    FreeOutside(es, k, n);
    FirstFitBeforeEnd(es, k, n);
    InUseFacts(es[k]);
    forall i: nat | k <= i < k + n ensures InUse(es'[i]) && (IsFile(es'[i]) <==> i == k) {
      SetInUse(es', k, i);
    }
    AddedEnds(es, es', k, n);
    Reshape(es, es', k, n);
  }

  lemma AddedEnds(es: seq<RawEntry>, es': seq<RawEntry>, k: nat, n: nat)
    requires EndsRight(es) && ChangedWithin(es, es', k, n)
    requires forall i :: 0 <= i < k ==> !IsEndMarker(es[i])
    requires forall i :: k <= i < k + n ==> InUse(es'[i])
    ensures EndsRight(es')
  {
    hide IsEndMarker, InUse;
    forall i: nat, j: nat | i < j < |es'| && IsEndMarker(es'[i]) ensures !InUse(es'[j]) {
      InUseFacts(es'[i]);
    }
  }

  /** `&= 0x7F` on the type of an entry. */
  function Tombstone(r: RawEntry): RawEntry { r[0 := (r[0] % 128) as byte] }

  function Tombstoned(es: seq<RawEntry>, k: nat, n: nat): (r: seq<RawEntry>)
    requires k + n <= |es|
    ensures |r| == |es|
    ensures forall i :: 0 <= i < |es| ==> r[i] == if k <= i < k + n then Tombstone(es[i]) else es[i]
  {
    seq(|es|, i requires 0 <= i < |es| => if k <= i < k + n then Tombstone(es[i]) else es[i])
  }

  /** Tombstoning a set removes exactly that file from the listing. */
  lemma RemoveSet(es: seq<RawEntry>, k: nat)
    requires WellFormed(es) && SetAt(es, k)
    ensures var es' := Tombstoned(es, k, SetSize(es, k));
            WellFormed(es') && k in Listing(es) && Listing(es') == Listing(es) - {k}
  {
    hide ParseSet, IsFile, IsEndMarker, InUse, SetAt, Tombstone;
    SetBounds(es, k);
    var n := SetSize(es, k);
    var es' := Tombstoned(es, k, n);
    SetOutside(es, k);
    SetInUse(es, k, k);
    forall i: nat | k <= i < k + n ensures !InUse(es'[i]) && !IsFile(es'[i]) && !IsEndMarker(es'[i]) {
      SetTypes(es, k, i);
      TombstoneFacts(es[i]);
    }
    Reshape(es, es', k, n);
  }

  lemma TombstoneFacts(r: RawEntry)
    requires IsFile(r) || IsStream(r) || IsName(r)
    ensures !InUse(Tombstone(r)) && !IsFile(Tombstone(r)) && !IsEndMarker(Tombstone(r))
  {
  }

  lemma SetTypes(es: seq<RawEntry>, k: nat, i: nat)
    requires SetAt(es, k) && k <= i < k + SetSize(es, k)
    ensures IsFile(es[i]) || IsStream(es[i]) || IsName(es[i])
  {
  }

  /** Rewriting the first two entries of a set, with the name left alone, changes exactly that file
      in the listing. */
  lemma UpdateSet(es: seq<RawEntry>, k: nat, file: RawEntry, stream: RawEntry)
    requires WellFormed(es) && SetAt(es, k)
    requires IsFile(file) && IsStream(stream) && file[1] == es[k][1] && stream[3] == es[k + 1][3]
    ensures var es' := es[k := file][k + 1 := stream];
            && WellFormed(es') && SetAt(es', k) && SetSize(es', k) == SetSize(es, k) && k in Listing(es)
            && Listing(es') == Listing(es)[k := FileSet(ParseFile(file), ParseStream(stream), NameOf(es, k))]
  {
    hide ParseFile, ParseStream, IsEndMarker, InUse;
    var n := SetSize(es, k);
    var es' := es[k := file][k + 1 := stream];
    SetOutside(es, k);
    forall i: nat | k <= i < k + n ensures InUse(es[i]) && InUse(es'[i]) && (IsFile(es'[i]) <==> i == k) {
      SetInUse(es, k, i);
      SetInUse(es', k, i);
    }
    UpdatedEnds(es, es', k, n);
    assert NameOf(es', k) == NameOf(es, k);
    Reshape(es, es', k, n);
  }

  /** Replacing entries in use by entries in use moves no end marker. */
  lemma UpdatedEnds(es: seq<RawEntry>, es': seq<RawEntry>, k: nat, n: nat)
    requires EndsRight(es) && ChangedWithin(es, es', k, n)
    requires forall i :: k <= i < k + n ==> InUse(es[i]) && InUse(es'[i])
    ensures EndsRight(es')
  {
    hide IsEndMarker, InUse;
    forall i: nat, j: nat | i < j < |es'| && IsEndMarker(es'[i]) ensures !InUse(es'[j]) {
      InUseFacts(es'[i]);
    }
  }

  // ---- checksums --------------------------------------------------------------------------------

  /** The entry set checksum of section 6.3.3: all bytes of the set but the two of the checksum
      itself. */
  function Checksum(b: seq<byte>): u16 {
    if b == [] then 0
    else
      var i := |b| - 1;
      if i == 2 || i == 3 then Checksum(b[..i]) else RotateAdd(Checksum(b[..i]), b[i])
  }

  /** The bytes of entries in order. */
  function Flat(es: seq<RawEntry>): (b: seq<byte>)
    ensures |b| == 32 * |es|
  {
    if es == [] then [] else Flat(es[..|es| - 1]) + es[|es| - 1]
  }

  /** The checksum stored in the set at `k` is that of its bytes. */
  ghost predicate ChecksumRight(es: seq<RawEntry>, k: nat, n: nat)
    requires 0 < n && k + n <= |es|
  {
    FromLE16(es[k][2..4]) == Checksum(Flat(es[k..k + n]))
  }

  /** One more byte. */
  lemma NextSum(all: seq<byte>, c: byte)
    ensures Checksum(all + [c]) == if |all| == 2 || |all| == 3 then Checksum(all) else RotateAdd(Checksum(all), c)
  {
    hide RotateAdd;
    assert (all + [c])[..|all|] == all;
  }

  /** Every byte counts but the two of the checksum itself: of two sets of bytes that differ in one place, the
      checksums are equal exactly when that is one of these two. */
  lemma {:induction false} ChecksumTells(b: seq<byte>, b': seq<byte>, i: nat)
    requires |b'| == |b| && i < |b| && b'[i] != b[i] && forall j :: 0 <= j < |b| && j != i ==> b'[j] == b[j]
    ensures Checksum(b') == Checksum(b) <==> i == 2 || i == 3
  {
    hide RotateAdd;
    var n := |b| - 1;
    if i == n {
      assert b'[..n] == b[..n];
      RotateApart(Checksum(b[..n]), 0, b[n], b'[n]);
    } else {
      ChecksumTells(b[..n], b'[..n], i);
      RotateApart(Checksum(b[..n]), Checksum(b'[..n]), b[n], b[n]);
    }
  }

  /** Counting in the bytes `x` one by one goes through the sums `h`. */
  lemma {:induction false} Counted(a: seq<byte>, x: seq<byte>, h: seq<u16>)
    requires |a| > 3 && |h| == |x| + 1 && Checksum(a) == h[0]
    requires forall i :: 0 <= i < |x| ==> h[i + 1] == RotateAdd(h[i], x[i])
    ensures Checksum(a + x) == h[|x|]
  {
    hide RotateAdd;
    if x == [] {
      assert a + x == a;
    } else {
      var n := |x| - 1;
      Counted(a, x[..n], h[..n + 1]);
      assert (a + x)[..|a| + n] == a + x[..n];
    }
  }

  /** The entry set of a file `Hello.TXT` of 26 bytes, as another system stored it. */
  function HelloFile(): (b: seq<byte>)
    ensures |b| == 32
  {
    [133, 2, 240, 119, 32, 0, 0, 0]
    + [0, 107, 16, 93, 15, 107, 16, 93]
    + [15, 107, 16, 93, 183, 107, 128, 128]
    + [128, 0, 0, 0, 0, 0, 0, 0]
  }

  function HelloStream(): (b: seq<byte>)
    ensures |b| == 32
  {
    [192, 3, 0, 9, 70, 48, 0, 0]
    + [26, 0, 0, 0, 0, 0, 0, 0]
    + [0, 0, 0, 0, 5, 0, 0, 0]
    + [26, 0, 0, 0, 0, 0, 0, 0]
  }

  function HelloName(): (b: seq<byte>)
    ensures |b| == 32
  {
    [193, 0, 72, 0, 101, 0, 108, 0]
    + [108, 0, 111, 0, 46, 0, 84, 0]
    + [88, 0, 84, 0, 0, 0, 0, 0]
    + [0, 0, 0, 0, 0, 0, 0, 0]
  }

  function HelloSet(): (b: seq<byte>)
    ensures |b| == 96
  {
    HelloFile() + HelloStream() + HelloName()
  }

  lemma HelloFour()
    ensures Checksum([133, 2, 240, 119]) == 32836
  {
    assert [133, 2, 240, 119][..3] == [133, 2, 240] && [133, 2, 240][..2] == [133, 2] && [133, 2][..1] == [133];
    assert Checksum([133]) == 133 && Checksum([133, 2]) == 32836;
  }

  lemma HelloStart()
    ensures Checksum([133, 2, 240, 119, 32, 0, 0, 0]) == 18440
  {
    hide Checksum;
    HelloFour();
    assert [133, 2, 240, 119] + [32, 0, 0, 0] == [133, 2, 240, 119, 32, 0, 0, 0];
    Counted([133, 2, 240, 119], [32, 0, 0, 0], [32836, 16450, 8225, 36880, 18440]);
  }

  lemma FirstHalf()
    ensures Checksum([133, 2, 240, 119, 32, 0, 0, 0] + [0, 107, 16, 93, 15, 107, 16, 93]) == 42193
  {
    hide Checksum;
    HelloStart();
    Counted([133, 2, 240, 119, 32, 0, 0, 0], [0, 107, 16, 93, 15, 107, 16, 93],
            [18440, 9220, 4717, 35142, 17664, 8847, 37298, 18665, 42193]);
  }

  lemma SecondHalf(a: seq<byte>)
    requires |a| > 3 && Checksum(a) == 42193
    ensures Checksum(a + [15, 107, 16, 93, 183, 107, 128, 128] + [128, 0, 0, 0, 0, 0, 0, 0]) == 40589
  {
    hide Checksum;
    Counted(a, [15, 107, 16, 93, 183, 107, 128, 128], [42193, 53879, 59814, 29923, 47822, 24094, 12154, 6205, 35998]);
    Counted(a + [15, 107, 16, 93, 183, 107, 128, 128], [128, 0, 0, 0, 0, 0, 0, 0],
            [35998, 18127, 41831, 53683, 59609, 62572, 31286, 15643, 40589]);
  }

  lemma StreamHalf(a: seq<byte>)
    requires |a| > 3 && Checksum(a) == 40589
    ensures Checksum(a + [192, 3, 0, 9, 70, 48, 0, 0] + [26, 0, 0, 0, 0, 0, 0, 0]) == 59753
  {
    hide Checksum;
    Counted(a, [192, 3, 0, 9, 70, 48, 0, 0], [40589, 53254, 26630, 13315, 39434, 19787, 42709, 54122, 27061]);
    Counted(a + [192, 3, 0, 9, 70, 48, 0, 0], [26, 0, 0, 0, 0, 0, 0, 0],
            [27061, 46324, 23162, 11581, 38558, 19279, 42407, 53971, 59753]);
  }

  lemma StreamRest(a: seq<byte>)
    requires |a| > 3 && Checksum(a) == 59753
    ensures Checksum(a + [0, 0, 0, 0, 5, 0, 0, 0] + [26, 0, 0, 0, 0, 0, 0, 0]) == 7690
  {
    hide Checksum;
    Counted(a, [0, 0, 0, 0, 5, 0, 0, 0], [59753, 62644, 31322, 15661, 40598, 20304, 10152, 5076, 2538]);
    Counted(a + [0, 0, 0, 0, 5, 0, 0, 0], [26, 0, 0, 0, 0, 0, 0, 0],
            [2538, 1295, 33415, 49475, 57505, 61520, 30760, 15380, 7690]);
  }

  lemma NameHalf(a: seq<byte>)
    requires |a| > 3 && Checksum(a) == 7690
    ensures Checksum(a + [193, 0, 72, 0, 101, 0, 108, 0] + [108, 0, 111, 0, 46, 0, 84, 0]) == 29856
  {
    hide Checksum;
    Counted(a, [193, 0, 72, 0, 101, 0, 108, 0], [7690, 4038, 2019, 33849, 49692, 24947, 45241, 55496, 27748]);
    Counted(a + [193, 0, 72, 0, 101, 0, 108, 0], [108, 0, 111, 0, 46, 0, 84, 0],
            [27748, 13982, 6991, 36374, 18187, 41907, 53721, 59712, 29856]);
  }

  lemma NameRest(a: seq<byte>)
    requires |a| > 3 && Checksum(a) == 29856
    ensures Checksum(a + [88, 0, 84, 0, 0, 0, 0, 0] + [0, 0, 0, 0, 0, 0, 0, 0]) == 30704
  {
    hide Checksum;
    Counted(a, [88, 0, 84, 0, 0, 0, 0, 0], [29856, 15016, 7508, 3838, 1919, 33727, 49631, 57583, 61559]);
    Counted(a + [88, 0, 84, 0, 0, 0, 0, 0], [0, 0, 0, 0, 0, 0, 0, 0],
            [61559, 63547, 64541, 65038, 32519, 49027, 57281, 61408, 30704]);
  }

  /** Its checksum is the one stored with it, in bytes 2 and 3. */
  lemma HelloChecksum()
    ensures Checksum(HelloSet()) == 0x77F0 && HelloSet()[2] == 0xF0 && HelloSet()[3] == 0x77
  {
    hide Checksum;
    FirstHalf();
    var a := [133, 2, 240, 119, 32, 0, 0, 0] + [0, 107, 16, 93, 15, 107, 16, 93];
    SecondHalf(a);
    assert a + [15, 107, 16, 93, 183, 107, 128, 128] + [128, 0, 0, 0, 0, 0, 0, 0] == HelloFile();
    StreamHalf(HelloFile());
    var b := HelloFile() + [192, 3, 0, 9, 70, 48, 0, 0] + [26, 0, 0, 0, 0, 0, 0, 0];
    StreamRest(b);
    assert b + [0, 0, 0, 0, 5, 0, 0, 0] + [26, 0, 0, 0, 0, 0, 0, 0] == HelloFile() + HelloStream();
    NameHalf(HelloFile() + HelloStream());
    var c := HelloFile() + HelloStream() + [193, 0, 72, 0, 101, 0, 108, 0] + [108, 0, 111, 0, 46, 0, 84, 0];
    NameRest(c);
    assert c + [88, 0, 84, 0, 0, 0, 0, 0] + [0, 0, 0, 0, 0, 0, 0, 0] == HelloSet();
  }

  /** What is stored as the checksum does not count. */
  lemma {:induction false} ChecksumSkips(b: seq<byte>, b': seq<byte>)
    requires |b'| == |b| && forall i :: 0 <= i < |b| && i != 2 && i != 3 ==> b'[i] == b[i]
    ensures Checksum(b') == Checksum(b)
  {
    if b != [] {
      ChecksumSkips(b[..|b| - 1], b'[..|b| - 1]);
    }
  }

  lemma {:induction false} FlatFirst(e: RawEntry, rest: seq<RawEntry>)
    ensures Flat([e] + rest) == e + Flat(rest)
  {
    var all := [e] + rest;
    if rest == [] {
      assert all[..0] == [];
    } else {
      assert all[..|all| - 1] == [e] + rest[..|rest| - 1];
      FlatFirst(e, rest[..|rest| - 1]);
    }
  }

  function WithChecksum(e: RawEntry, sum: u16): RawEntry { Splice(e, 2, LE16(sum)) }

  /** The entries with the checksum of the set at `k` stored in it. */
  function Sealed(es: seq<RawEntry>, k: nat, n: nat): (r: seq<RawEntry>)
    requires 0 < n && k + n <= |es|
    ensures |r| == |es|
  {
    es[k := WithChecksum(es[k], Checksum(Flat(es[k..k + n])))]
  }

  /** Storing the checksum of a set in its first entry makes it right. */
  lemma SealedRight(es: seq<RawEntry>, k: nat, n: nat)
    requires 0 < n && k + n <= |es|
    ensures ChecksumRight(Sealed(es, k, n), k, n)
  {
    var sum := Checksum(Flat(es[k..k + n]));
    var es' := Sealed(es, k, n);
    assert es[k..k + n] == [es[k]] + es[k + 1..k + n];
    assert es'[k..k + n] == [es'[k]] + es[k + 1..k + n];
    FlatFirst(es[k], es[k + 1..k + n]);
    FlatFirst(es'[k], es[k + 1..k + n]);
    ChecksumSkips(Flat(es[k..k + n]), Flat(es'[k..k + n]));
    assert es'[k][2..4] == LE16(sum);
  }

  /** Storing the checksum changes no other field of a set. */
  lemma ChecksumField(r: RawEntry, sum: u16)
    ensures WithChecksum(r, sum)[1] == r[1] && (IsFile(WithChecksum(r, sum)) <==> IsFile(r))
    ensures ParseFile(WithChecksum(r, sum)) == ParseFile(r).(setChecksum := sum)
  {
    var r' := WithChecksum(r, sum);
    assert r'[2..4] == LE16(sum);
    assert r'[4..6] == r[4..6] && r'[8..12] == r[8..12] && r'[12..16] == r[12..16] && r'[16..20] == r[16..20];
  }

  lemma ChecksumSerialized(e: FileDirEntry, sum: u16)
    ensures WithChecksum(SerializeFile(e), sum) == SerializeFile(e.(setChecksum := sum))
  {
    assert SerializeFile(e.(setChecksum := sum))[2..4] == LE16(sum);
  }

  /** From `es0` to `es` the listing says `f` at `k` and is otherwise as it was; the checksum stored
      with `f` is right, its `n` entries are in use, and no other entry is different. */
  ghost predicate SetPut(es0: seq<RawEntry>, es: seq<RawEntry>, k: nat, n: nat, f: FileSet) {
    && WellFormed(es0) && WellFormed(es) && Listing(es) == Listing(es0)[k := f]
    && ChangedWithin(es0, es, k, n) && ChecksumRight(es, k, n)
    && forall i :: k <= i < k + n ==> InUse(es[i])
  }

  lemma AllInUse(es: seq<RawEntry>, k: nat)
    requires SetAt(es, k)
    ensures forall i :: k <= i < k + SetSize(es, k) ==> InUse(es[i])
  {
    forall i | k <= i < k + SetSize(es, k) ensures InUse(es[i]) {
      SetInUse(es, k, i);
    }
  }

  /** A set whose first two entries were rewritten and which then got its checksum. */
  lemma SetRewritten(es: seq<RawEntry>, k: nat, file: RawEntry, stream: RawEntry, n: nat)
    requires WellFormed(es) && SetAt(es, k) && n == SetSize(es, k)
    requires IsFile(file) && IsStream(stream) && file[1] == es[k][1] && stream[3] == es[k + 1][3]
    ensures var es1 := es[k := file][k + 1 := stream];
            var sum := Checksum(Flat(es1[k..k + n]));
            SetPut(es, Sealed(es1, k, n), k, n,
                FileSet(ParseFile(file).(setChecksum := sum), ParseStream(stream), NameOf(es, k)))
  {
    hide ParseFile, ParseStream, IsEndMarker, InUse, Checksum, Flat, WithChecksum, IsFile, IsStream;
    SetBounds(es, k);
    var es1 := es[k := file][k + 1 := stream];
    var sum := Checksum(Flat(es1[k..k + n]));
    ChecksumField(file, sum);
    assert Sealed(es1, k, n) == es[k := WithChecksum(file, sum)][k + 1 := stream];
    UpdateSet(es, k, WithChecksum(file, sum), stream);
    AllInUse(Sealed(es1, k, n), k);
    SealedRight(es1, k, n);
  }

  // ---- searching for free entries ------------------------------------------------------------------

  /** Where the free entries at the end of a directory begin. */
  function FreeTail(es: seq<RawEntry>): (k: nat)
    ensures k <= |es| && forall i :: k <= i < |es| ==> !InUse(es[i])
    ensures k == 0 || InUse(es[k - 1])
  {
    if es == [] || InUse(es[|es| - 1]) then |es| else FreeTail(es[..|es| - 1])
  }

  /** What the search for `n` free entries comes back with: the first fit, or, if there is none, the
      free entries at the end although they are too few. */
  ghost predicate SearchResult(es: seq<RawEntry>, n: nat, r: Option<nat>) {
    if exists k :: FreeEntries(es, k, n) then r.Some? && FirstFit(es, r.value, n)
    else r == if FreeTail(es) < |es| then Some(FreeTail(es)) else None
  }

  /** So what is found is usable exactly when there is something usable. */
  lemma FoundUsable(es: seq<RawEntry>, n: nat, r: Option<nat>)
    requires SearchResult(es, n, r)
    ensures r.Some? && FreeEntries(es, r.value, n) <==> exists k :: FreeEntries(es, k, n)
  {
  }

  /** The entries of a one-cluster directory of 16 entries that holds one file with a name of 195 units. */
  function AlmostFull(): (es: seq<RawEntry>)
    ensures |es| == 16
  {
    [[0x85, 14] + seq(30, i => 0), [0xC0, 0, 0, 195] + seq(28, i => 0)]
    + seq(13, i => [0xC1] + seq(31, j => 0)) + [seq(32, i => 0)]
  }

  /** Its one free entry is handed out for a set of three. */
  lemma ShortRunFound()
    ensures WellFormed(AlmostFull()) && SearchResult(AlmostFull(), SetLength(1), Some(15))
    ensures !FreeEntries(AlmostFull(), 15, SetLength(1))
  {
    var es := AlmostFull();
    assert SetLength(1) == 3 && SetLength(195) == 15;
    assert IsFile(es[0]) && IsStream(es[1]) && forall i :: 2 <= i < 15 ==> IsName(es[i]);
    assert SetAt(es, 0);
    OneFree(es, 3);
  }

  lemma OneFree(es: seq<RawEntry>, n: nat)
    requires n > 1 && es != [] && !InUse(es[|es| - 1]) && forall i :: 0 <= i < |es| - 1 ==> InUse(es[i])
    ensures SearchResult(es, n, Some(|es| - 1)) && !FreeEntries(es, |es| - 1, n)
  {
    hide InUse;
    assert FreeTail(es) == |es| - 1;
    forall k: nat ensures !FreeEntries(es, k, n) {
      if k + n <= |es| {
        assert InUse(es[k]);
      }
    }
  }

  // ---- looking up a name ---------------------------------------------------------------------------

  /** `FileAttributes::contains`. */
  predicate ContainsAll(have: Attributes, want: Attributes) {
    forall i :: 0 <= i < 16 && BitOf(want, i) ==> BitOf(have, i)
  }

  /** The set is that of a file with this name, up to case, and these attributes. */
  ghost predicate Matches(table: UpcaseMap, f: FileSet, name: seq<u16>, want: Option<Attributes>) {
    && (want.Some? ==> ContainsAll(f.file.attributes, want.value))
    && Upcased(table, f.name) == Upcased(table, name)
  }

  /** A file is one whose entry has bit 5 of the attributes set. */
  lemma ArchiveBit(a: Attributes)
    ensures ContainsAll(a, ARCHIVE) <==> a / 32 % 2 == 1
  {
    hide BitOf;
    assert Pow2(5) == 32 && Pow2(4) == 16 && Pow2(3) == 8;
    BitQuotient(a, 5);
    forall i | 0 <= i < 16 ensures BitOf(ARCHIVE, i) <==> i == 5 {
      BitQuotient(ARCHIVE, i);
      PowerOver32(i);
    }
  }

  lemma PowerOver32(i: nat)
    ensures 32 / Pow2(i) % 2 == 1 <==> i == 5
  {
    hide Pow2;
    SmallPowers();
    if i > 5 {
      PowerGrows(i);
      DivModUnique(32, Pow2(i), 0, 32);
    } else {
      assert i == 0 || i == 1 || i == 2 || i == 3 || i == 4 || i == 5;
    }
  }

  lemma SmallPowers()
    ensures Pow2(0) == 1 && Pow2(1) == 2 && Pow2(2) == 4 && Pow2(3) == 8 && Pow2(4) == 16 && Pow2(5) == 32
  {
    assert Pow2(3) == 8;
  }

  lemma {:induction false} PowerGrows(i: nat)
    requires i >= 5
    ensures i == 5 ==> Pow2(i) == 32
    ensures i > 5 ==> Pow2(i) >= 64
  {
    if i > 5 {
      PowerGrows(i - 1);
    } else {
      assert Pow2(3) == 8;
    }
  }

  /** Looking for a file by name is looking for the attribute and for the name up to case. */
  lemma MatchesName(table: UpcaseMap, f: FileSet, name: seq<u16>)
    ensures Matches(table, f, name, Some(ARCHIVE)) <==> f.file.attributes / 32 % 2 == 1 && SameName(table, f.name, name)
  {
    hide ContainsAll, Upcased, SameName;
    ArchiveBit(f.file.attributes);
    SameNameUpcased(table, f.name, name);
  }

  /** The hash stored with a file is that of its name. */
  predicate HashRight(table: UpcaseMap, f: FileSet) { f.stream.nameHash == HashOf(Upcased(table, f.name)) }

  ghost predicate HashesRight(table: UpcaseMap, es: seq<RawEntry>)
    requires WellFormed(es)
  {
    forall k :: k in Listing(es) ==> HashRight(table, Listing(es)[k])
  }

  /** The first file of the directory with this name and these attributes. */
  ghost predicate FirstMatch(table: UpcaseMap, es: seq<RawEntry>, name: seq<u16>, want: Option<Attributes>,
                             r: Option<nat>)
    requires WellFormed(es)
  {
    match r
    case None => forall k :: k in Listing(es) ==> !Matches(table, Listing(es)[k], name, want)
    case Some(k) =>
      && k in Listing(es) && Matches(table, Listing(es)[k], name, want)
      && forall j :: j in Listing(es) && j < k ==> !Matches(table, Listing(es)[j], name, want)
  }
}
