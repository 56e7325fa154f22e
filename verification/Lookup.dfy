/** Looking up a file by name: the prefilters by hash and length, and the comparison of the name in
    parts of 15 units (src/directory.rs:21-103, src/directory_entry.rs:489-600). */
module Lookup {
  import opened Bytes
  import opened Chains
  import opened DirEntry
  import opened DirPlace
  import opened DirReader
  import opened DirWriter
  import opened Disk
  import opened EntrySet
  import opened File
  import opened FileData
  import opened Names
  import opened Results
  import opened Volume

  datatype Filter =
    | AllPass
    | ExactName(name: seq<u16>, hash: u16, want: Option<Attributes>, count: nat)
  {
    predicate Hash(hash_: u16, attributes: Attributes) {
      AllPass? || (hash == hash_ && (want.Some? ==> ContainsAll(attributes, want.value)))
    }

    predicate Length(n: nat) { AllPass? || count == n }

    /** `file_name`: a part of a stored name, from unit `ordinal` on, against the name wanted. */
    predicate Part(table: UpcaseMap, part: seq<u16>, ordinal: nat) {
      AllPass? ||
      forall i :: 0 <= i < |part| && ordinal + i < |name| ==> Upcase(table, name[ordinal + i]) == Upcase(table, part[i])
    }
  }

  /** What `ExactNameFilter::new` makes for a name. */
  ghost predicate IsFor(table: UpcaseMap, f: Filter, name: seq<u16>, want: Option<Attributes>) {
    f == ExactName(name, HashOf(Upcased(table, name)), want, |name|)
  }

  method NewFilter(table: UpcaseMap, name: seq<u16>, want: Option<Attributes>) returns (r: Result<Filter>)
    ensures r.Ok? <==> IsLegal(name)
    ensures r.Ok? ==> IsFor(table, r.value, name, want)
    ensures r.Err? ==> r == Err(InvalidFileName)
  {
    var enc := EncodeAndHash(table, name);
    if enc.Err? {
      return Err(InvalidFileName);
    }
    r := Ok(ExactName(name, enc.value.0, want, enc.value.1));
  }

  /** A set that passes all three tests. */
  ghost predicate Accepts(table: UpcaseMap, f: Filter, s: FileSet) {
    f.Hash(s.stream.nameHash, s.file.attributes) && f.Length(|s.name|) && f.Part(table, s.name, 0)
  }

  /** Passing the tests of the filter for a name is being a file of that name, up to case, with the
      attributes wanted, and having the right hash stored. */
  lemma AcceptsMatches(table: UpcaseMap, f: Filter, name: seq<u16>, want: Option<Attributes>, s: FileSet)
    requires IsFor(table, f, name, want)
    ensures Accepts(table, f, s) <==> Matches(table, s, name, want) && HashRight(table, s)
  {
    if Upcased(table, s.name) == Upcased(table, name) {
      EqualUpcasedEqualHash(table, s.name, name);
      assert forall i :: 0 <= i < |name| ==> Upcase(table, name[i]) == Upcased(table, name)[i] == Upcase(table, s.name[i]);
    }
    if |s.name| == |name| && f.Part(table, s.name, 0) {
      assert forall i :: 0 <= i < |name| ==> Upcase(table, name[0 + i]) == Upcase(table, s.name[i]);
      assert Upcased(table, s.name) == Upcased(table, name);
    }
  }

  /** The first file of the directory with this name, these attributes and the right hash. */
  ghost predicate FirstHashed(table: UpcaseMap, es: seq<RawEntry>, name: seq<u16>, want: Option<Attributes>,
                              r: Option<nat>)
    requires WellFormed(es)
  {
    match r
    case None => forall k :: k in Listing(es) ==>
        !(Matches(table, Listing(es)[k], name, want) && HashRight(table, Listing(es)[k]))
    case Some(k) =>
      && k in Listing(es) && Matches(table, Listing(es)[k], name, want) && HashRight(table, Listing(es)[k])
      && forall j :: j in Listing(es) && j < k ==>
          !(Matches(table, Listing(es)[j], name, want) && HashRight(table, Listing(es)[j]))
  }

  lemma MatchListed(table: UpcaseMap, es: seq<RawEntry>, name: seq<u16>, want: Option<Attributes>, m: Option<nat>)
    requires WellFormed(es) && FirstMatch(table, es, name, want, m)
    ensures m.Some? ==> m.value in Listing(es)
  {
  }

  /** What a lookup by hash finds is what a plain scan by name finds, exactly when the latter has the right
      hash stored, or is nothing. */
  lemma HashedIsFirst(table: UpcaseMap, es: seq<RawEntry>, name: seq<u16>, want: Option<Attributes>, k: Option<nat>,
                      m: Option<nat>)
    requires WellFormed(es) && FirstHashed(table, es, name, want, k) && FirstMatch(table, es, name, want, m)
    ensures k == m <==> (m.Some? ==> HashRight(table, Listing(es)[m.value]))
  {
    hide Matches, HashRight, WellFormed;
    if m.Some? && k.Some? && HashRight(table, Listing(es)[m.value]) {
      assert !(k.value < m.value) && !(m.value < k.value);
    }
  }

  /** In particular with all hashes right. */
  lemma RightHashed(table: UpcaseMap, es: seq<RawEntry>, name: seq<u16>, want: Option<Attributes>, k: Option<nat>)
    requires WellFormed(es) && HashesRight(table, es) && FirstHashed(table, es, name, want, k)
    ensures FirstMatch(table, es, name, want, k)
  {
    hide Matches, HashRight, WellFormed;
  }

  /** Upper and lower case are not distinguished by this table: it changes nothing. */
  function PlainTable(): UpcaseMap { seq(128, i => i) }

  /** The set of a file named `A` with 0 stored for its hash. */
  function WrongHashSet(): (r: seq<RawEntry>)
    ensures |r| == 3
  {
    BuildSet(FileDirEntry(2, 0, ARCHIVE, 0, 0, 0, 0, 0, 0, 0, 0), StreamEntry(3, 1, 0, 0, 0, 0), [0x41])
  }

  /** The entries of a one-cluster directory with just that file. */
  function WrongHashDirectory(): (es: seq<RawEntry>)
    ensures |es| == 16
  {
    WrongHashSet() + seq(13, i => seq(32, j => 0))
  }

  lemma OneSet(es: seq<RawEntry>, n: nat)
    requires 0 < n <= |es| && SetAt(es, 0) && SetSize(es, 0) == n && forall i :: n <= i < |es| ==> IsEndMarker(es[i])
    ensures WellFormed(es) && Listing(es) == map[0 := ParseSet(es, 0)]
  {
    forall k | 0 <= k < |es| && IsFile(es[k]) ensures k == 0 {
      if 0 < k < n { SetInUse(es, 0, k); }
      if n <= k { InUseFacts(es[k]); }
    }
    forall i, j | 0 <= i < j < |es| && IsEndMarker(es[i]) ensures !InUse(es[j]) {
      if i < n { InUseFacts(es[i]); SetInUse(es, 0, i); }
      InUseFacts(es[j]);
    }
  }

  /** The file is there, alone, and a lookup by its name does not find it. */
  lemma WrongHashMissed()
    ensures WellFormed(WrongHashDirectory()) && Listing(WrongHashDirectory()).Keys == {0}
    ensures FirstMatch(PlainTable(), WrongHashDirectory(), [0x41], Some(ARCHIVE), Some(0))
    ensures FirstHashed(PlainTable(), WrongHashDirectory(), [0x41], Some(ARCHIVE), None)
  {
    hide BuildSet, SerializeFile, SerializeStream, SetAt, WellFormed;
    var es := WrongHashDirectory();
    var file, stream := FileDirEntry(2, 0, ARCHIVE, 0, 0, 0, 0, 0, 0, 0, 0), StreamEntry(3, 1, 0, 0, 0, 0);
    assert SetLength(1) == 3 && es[0..3] == BuildSet(file, stream, [0x41]);
    BuildReadsBack(es, 0, file, stream, [0x41]);
    OneSet(es, 3);
    WrongHash();
  }

  lemma WrongHash()
    ensures HashOf(Upcased(PlainTable(), [0x41])) != 0
  {
    var u := Upcased(PlainTable(), [0x41]);
    assert u == [0x41] && u[..0] == [];
    assert HashOf([]) == 0;
    assert RotateAdd(RotateAdd(0, 0x41), 0) == 0x8020;
  }

  /** What the directory says of a file, and where. */
  datatype Found = Found(file: FileDirEntry, stream: StreamEntry, location: Location)

  /** No set that starts before entry `p` is accepted. */
  ghost predicate NoneBefore(table: UpcaseMap, f: Filter, es: seq<RawEntry>, p: nat)
    requires WellFormed(es)
  {
    forall j :: j in Listing(es) && j < p ==> !Accepts(table, f, Listing(es)[j])
  }

  /** The file entry, the stream extension and `c` units of the name of the set at `k` have passed;
      `i` name entries have been read. */
  ghost predicate Passed(table: UpcaseMap, f: Filter, es: seq<RawEntry>, k: nat, i: nat, c: nat)
    requires WellFormed(es)
  {
    && k in Listing(es)
    && var s := Listing(es)[k];
    && f.Hash(s.stream.nameHash, s.file.attributes) && f.Length(|s.name|)
    && c <= |s.name| && c == (if 15 * i < |s.name| then 15 * i else |s.name|)
    && f.Part(table, s.name[..c], 0)
  }

  /** Comparing a name part by part is comparing it as a whole. */
  lemma PartExtends(table: UpcaseMap, f: Filter, name: seq<u16>, c: nat, d: nat)
    requires c <= d <= |name| && f.Part(table, name[..c], 0)
    ensures f.Part(table, name[c..d], c) <==> f.Part(table, name[..d], 0)
  {
    if f.ExactName? {
      assert forall j :: c <= j < d ==> name[c..d][j - c] == name[..d][j];
      if f.Part(table, name[c..d], c) {
        forall j | 0 <= j < d && 0 + j < |f.name| ensures Upcase(table, f.name[0 + j]) == Upcase(table, name[..d][j]) {
          if j < c {
            assert Upcase(table, f.name[0 + j]) == Upcase(table, name[..c][j]);
          } else {
            assert Upcase(table, f.name[c + (j - c)]) == Upcase(table, name[c..d][j - c]);
          }
        }
      }
      if f.Part(table, name[..d], 0) {
        forall j | 0 <= j < d - c && c + j < |f.name| ensures Upcase(table, f.name[c + j]) == Upcase(table, name[c..d][j]) {
          assert Upcase(table, f.name[0 + (c + j)]) == Upcase(table, name[..d][c + j]);
        }
      }
    }
  }

  lemma PartOfWhole(table: UpcaseMap, f: Filter, name: seq<u16>, d: nat)
    requires d <= |name| && f.Part(table, name, 0)
    ensures f.Part(table, name[..d], 0)
  {
    if f.ExactName? {
      forall j | 0 <= j < d && 0 + j < |f.name| ensures Upcase(table, f.name[0 + j]) == Upcase(table, name[..d][j]) {
        assert Upcase(table, f.name[0 + j]) == Upcase(table, name[j]);
      }
    }
  }

  /** The next part of a name passes or not, and with it the whole set. */
  lemma PassedPart(table: UpcaseMap, f: Filter, es: seq<RawEntry>, k: nat, i: nat, c: nat, part: seq<u16>)
    requires WellFormed(es) && Passed(table, f, es, k, i, c) && c < |Listing(es)[k].name|
    requires var s := Listing(es)[k];
             |part| == (if |s.name| - c < 15 then |s.name| - c else 15) && part == s.name[c..c + |part|]
    ensures f.Part(table, part, c) ==> Passed(table, f, es, k, i + 1, c + |part|)
    ensures !f.Part(table, part, c) ==> !Accepts(table, f, Listing(es)[k])
    ensures f.Part(table, part, c) && c + |part| == |Listing(es)[k].name| ==> Accepts(table, f, Listing(es)[k])
  {
    hide Listing, WellFormed, Filter.Part, Filter.Hash, Filter.Length;
    var s := Listing(es)[k];
    var d := c + |part|;
    PartExtends(table, f, s.name, c, d);
    if f.Part(table, s.name, 0) {
      PartOfWhole(table, f, s.name, d);
    }
    if d == |s.name| { assert s.name[..d] == s.name; }
  }

  // ---- the scan ---------------------------------------------------------------------------------

  /** A reader at work on a whole, well-formed directory. */
  ghost predicate Scanning(chain: DirectoryEntryChain)
    reads chain, chain.vol, chain.vol.Footprint()
  {
    chain.Valid() && chain.numEntries == None && AllStore(chain.vol.g, chain.dir)
        && WellFormed(EntriesOf(chain.vol, chain.dir))
  }

  ghost function EntriesRead(chain: DirectoryEntryChain): (es: seq<RawEntry>)
    requires Scanning(chain)
    reads chain, chain.vol, chain.vol.Footprint()
    ensures WellFormed(es) && chain.vol.Valid() && chain.at <= |es| == Capacity(chain.vol.g, chain.dir)
  {
    AtMost(chain);
    EntriesOf(chain.vol, chain.dir)
  }

  /** `next` on a whole directory. */
  method NextRaw(chain: DirectoryEntryChain) returns (r: Option<(RawEntry, Location)>)
    requires Scanning(chain)
    modifies chain, chain.vol.Footprint() - {chain.vol}
    ensures chain.vol.Valid() && chain.vol.Unsaved() <= old(chain.vol.Unsaved())
    ensures r.None? <==> old(chain.at) == |old(EntriesRead(chain))|
    ensures r.Some? ==>
              && Scanning(chain) && EntriesRead(chain) == old(EntriesRead(chain)) && chain.at == old(chain.at) + 1
              && old(chain.at) < |EntriesRead(chain)| && old(chain.at) < Capacity(chain.vol.g, chain.dir)
              && r.value == (EntriesRead(chain)[old(chain.at)], PlaceOf(chain.vol.g, chain.dir, old(chain.at)))
  {
    hide Volume.Coherent, Volume.Unsaved, Volume.View, Geometry.Valid, Entries, PlaceOf, Good, Capacity, AllStore,
         IsDirectory, DirectoryEntryChain.Valid, WellFormed, ParseFile, ParseStream, IsEndMarker;
    AtMost(chain);
    r := chain.Next();
  }

  lemma AtMost(chain: DirectoryEntryChain)
    requires chain.Valid()
    ensures chain.vol.Valid() && chain.at <= Capacity(chain.vol.g, chain.dir)
  {
    hide Volume.Coherent, Volume.View, Geometry.Valid, Good, Stands, IsDirectory, Entries, Capacity;
  }

  /** After an end marker there are no more files. */
  lemma NothingAfterEnd(es: seq<RawEntry>, i: nat)
    requires WellFormed(es) && i < |es| && IsEndMarker(es[i])
    ensures forall j :: i <= j < |es| ==> !IsFile(es[j])
  {
    forall j: nat | i <= j < |es| ensures !IsFile(es[j]) {
      InUseFacts(es[j]);
    }
  }

  /** `next_file_dir_entry`: the next file entry, or nothing if there are no more before the end of
      the directory or the end marker. */
  method NextFileDirEntry(chain: DirectoryEntryChain) returns (r: Option<(FileDirEntry, Location)>, ghost k: nat)
    requires Scanning(chain)
    modifies chain, chain.vol.Footprint() - {chain.vol}
    ensures chain.vol.Valid() && chain.vol.Unsaved() <= old(chain.vol.Unsaved())
    ensures r.None? ==> forall j :: old(chain.at) <= j < |old(EntriesRead(chain))| ==> !IsFile(old(EntriesRead(chain))[j])
    ensures r.Some? ==>
              && Scanning(chain) && EntriesRead(chain) == old(EntriesRead(chain))
              && old(chain.at) <= k < |EntriesRead(chain)| && chain.at == k + 1 && k < Capacity(chain.vol.g, chain.dir)
              && IsFile(EntriesRead(chain)[k]) && (forall j :: old(chain.at) <= j < k ==> !IsFile(EntriesRead(chain)[j]))
              && r.value == (ParseFile(EntriesRead(chain)[k]), PlaceOf(chain.vol.g, chain.dir, k))
  {
    hide Volume.Coherent, Volume.Unsaved, Volume.View, Geometry.Valid, Entries, PlaceOf, Good, Capacity, AllStore,
         IsDirectory, DirectoryEntryChain.Valid, WellFormed, ParseFile, ParseStream, IsEndMarker, Scanning;
    ghost var es, start := EntriesRead(chain), chain.at;
    k := chain.at;
    while true
      invariant Scanning(chain) && EntriesRead(chain) == es
      invariant chain.vol.Valid() && chain.vol.Unsaved() <= old(chain.vol.Unsaved())
      invariant start <= chain.at <= |es|
      invariant forall j :: start <= j < chain.at ==> !IsFile(es[j])
      decreases |es| - chain.at
    {
      k := chain.at;
      var e := NextRaw(chain);
      if e.None? {
        return None, k;
      }
      var entryType := TypeOf(e.value.0[0]);
      if entryType.EndOfDirectory? && IsEndMarker(e.value.0) {
        NothingAfterEnd(es, k);
        return None, k;
      }
      if entryType.FileAndDirectory? {
        return Some((ParseFile(e.value.0), e.value.1)), k;
      }
    }
  }

  datatype Verdict = Accepted | Rejected | Broken

  /** Reads the name of the set at `k` part by part. */
  method MatchName(chain: DirectoryEntryChain, table: UpcaseMap, f: Filter, nameLength: nat,
                   ghost k: nat) returns (v: Verdict)
    requires Scanning(chain) && k in Listing(EntriesRead(chain)) && chain.at == k + 2
    requires nameLength == |Listing(EntriesRead(chain))[k].name| && Passed(table, f, EntriesRead(chain), k, 0, 0)
    modifies chain, chain.vol.Footprint() - {chain.vol}
    ensures chain.vol.Valid() && chain.vol.Unsaved() <= old(chain.vol.Unsaved())
    ensures Scanning(chain) && EntriesRead(chain) == old(EntriesRead(chain))
    ensures k + 2 <= chain.at <= k + SetSize(EntriesRead(chain), k)
    ensures v == if Accepts(table, f, Listing(EntriesRead(chain))[k]) then Accepted else Rejected
  {
    hide Volume.Coherent, Volume.Unsaved, Volume.View, Geometry.Valid, Entries, PlaceOf, Good, Capacity, AllStore,
         IsDirectory, DirectoryEntryChain.Valid, WellFormed, ParseFile, ParseStream, IsEndMarker, Scanning, Listing,
         Accepts, Passed, Filter.Part, SetAt, SetSize, ParseSet;
    ghost var es := EntriesRead(chain);
    var cursor, i := 0, 0;
    SetOfListing(es, k);
    while true
      invariant Scanning(chain) && EntriesRead(chain) == es && chain.at == k + 2 + i
      invariant chain.vol.Valid() && chain.vol.Unsaved() <= old(chain.vol.Unsaved())
      invariant cursor < nameLength && Passed(table, f, es, k, i, cursor)
      invariant chain.at < k + SetSize(es, k)
      decreases nameLength - cursor
    {
      PartStored(table, f, es, k, i, cursor);
      var e := NextRaw(chain);
      if e.None? || !IsName(e.value.0) {
        return Broken;
      }
      var len := if nameLength - cursor < 15 then nameLength - cursor else 15;
      var part := ParseName(e.value.0)[..len];
      PassedPart(table, f, es, k, i, cursor, part);
      if !f.Part(table, part, cursor) {
        return Rejected;
      }
      cursor := cursor + len;
      i := i + 1;
      if cursor == nameLength {
        return Accepted;
      }
      PartsLeft(table, f, es, k, i, cursor);
    }
  }

  lemma SetOfListing(es: seq<RawEntry>, k: nat)
    requires WellFormed(es) && k in Listing(es)
    ensures SetAt(es, k) && 3 <= SetSize(es, k) && k + SetSize(es, k) <= |es| && Listing(es)[k] == ParseSet(es, k)
    ensures |Listing(es)[k].name| > 0
  {
  }

  lemma UnitStored(es: seq<RawEntry>, k: nat, i: nat, j: nat)
    requires WellFormed(es) && k in Listing(es) && j < 15 && 15 * i + j < |Listing(es)[k].name|
    ensures k + 2 + i < |es| && ParseName(es[k + 2 + i])[j] == Listing(es)[k].name[15 * i + j]
  {
    hide WellFormed, UnitAt, ParseFile, ParseStream;
    SetOfListing(es, k);
    assert (15 * i + j) / 15 == i && (15 * i + j) % 15 == j;
    assert Listing(es)[k].name[15 * i + j] == NameUnit(es, k, 15 * i + j);
  }

  lemma PartThere(table: UpcaseMap, f: Filter, es: seq<RawEntry>, k: nat, i: nat, c: nat)
    requires WellFormed(es) && Passed(table, f, es, k, i, c) && c < |Listing(es)[k].name|
    ensures k in Listing(es) && c == 15 * i && k + 2 + i < k + SetSize(es, k) && k + 2 + i < |es|
    ensures IsName(es[k + 2 + i])
  {
    hide Filter.Part, Filter.Hash, Filter.Length, UnitAt, ParseFile, ParseStream, WellFormed;
    SetOfListing(es, k);
  }

  /** While units are missing there are name entries to come, and each holds the next part. */
  lemma PartStored(table: UpcaseMap, f: Filter, es: seq<RawEntry>, k: nat, i: nat, c: nat)
    requires WellFormed(es) && Passed(table, f, es, k, i, c) && c < |Listing(es)[k].name|
    ensures var s := Listing(es)[k];
            var len := if |s.name| - c < 15 then |s.name| - c else 15;
            && k + 2 + i < k + SetSize(es, k) && k + 2 + i < |es| && IsName(es[k + 2 + i])
            && ParseName(es[k + 2 + i])[..len] == s.name[c..c + len]
  {
    hide Filter.Part, Filter.Hash, Filter.Length, UnitAt, ParseFile, ParseStream, ParseName, WellFormed, Passed,
         SetAt, SetSize, ParseSet, Listing, IsName, Accepts;
    PartThere(table, f, es, k, i, c);
    var s := Listing(es)[k];
    var len := if |s.name| - c < 15 then |s.name| - c else 15;
    var stored, wanted := ParseName(es[k + 2 + i])[..len], s.name[c..c + len];
    forall j | 0 <= j < len ensures stored[j] == wanted[j] {
      UnitStored(es, k, i, j);
    }
  }

  lemma PartsLeft(table: UpcaseMap, f: Filter, es: seq<RawEntry>, k: nat, i: nat, c: nat)
    requires WellFormed(es) && Passed(table, f, es, k, i, c) && c < |Listing(es)[k].name|
    ensures SetAt(es, k) && k + 2 + i < k + SetSize(es, k)
  {
    hide Filter.Part, Filter.Hash, Filter.Length, UnitAt, ParseFile, ParseStream;
  }

  /** Extending the part of the directory known to hold nothing acceptable. */
  lemma NoneBeforeNext(table: UpcaseMap, f: Filter, es: seq<RawEntry>, p: nat, q: nat)
    requires WellFormed(es) && NoneBefore(table, f, es, p) && p <= q <= |es|
    requires forall j :: p <= j < q && IsFile(es[j]) ==> !Accepts(table, f, Listing(es)[j])
    ensures NoneBefore(table, f, es, q)
  {
    hide Accepts, SetAt;
  }

  /** What the file entry and the stream extension of a listed set say. */
  lemma HeadOf(table: UpcaseMap, f: Filter, es: seq<RawEntry>, k: nat)
    requires WellFormed(es) && k < |es| && IsFile(es[k])
    ensures k in Listing(es) && k + 1 < |es| && IsStream(es[k + 1])
    ensures var s := Listing(es)[k];
            && s.file == ParseFile(es[k]) && s.stream == ParseStream(es[k + 1]) && |s.name| == s.stream.nameLength
            && (!f.Hash(s.stream.nameHash, s.file.attributes) || !f.Length(|s.name|) ==> !Accepts(table, f, s))
            && (f.Hash(s.stream.nameHash, s.file.attributes) && f.Length(|s.name|) ==> Passed(table, f, es, k, 0, 0))
  {
    hide Filter.Hash, Filter.Length;
    SetOfListing(es, k);
    assert Listing(es)[k].name[..0] == [];
  }

  lemma OnlyOneFile(es: seq<RawEntry>, k: nat, p: nat)
    requires WellFormed(es) && k in Listing(es) && p <= k + SetSize(es, k)
    ensures p <= |es| && forall j :: k < j < p ==> !IsFile(es[j])
  {
    hide IsFile, ParseSet;
    SetOfListing(es, k);
    forall j: nat | k < j < p ensures !IsFile(es[j]) {
      SetInUse(es, k, j);
    }
  }

  /** `next_file_entry`: the first set from the reader's position on that the filter accepts. */
  method NextFileEntry(chain: DirectoryEntryChain, table: UpcaseMap, f: Filter) returns (r: Option<Found>, ghost k: nat)
    requires Scanning(chain) && NoneBefore(table, f, EntriesRead(chain), chain.at)
    modifies chain, chain.vol.Footprint() - {chain.vol}
    ensures chain.vol.Valid() && chain.vol.Unsaved() <= old(chain.vol.Unsaved())
    ensures r.None? ==> NoneBefore(table, f, old(EntriesRead(chain)), |old(EntriesRead(chain))|)
    ensures r.Some? ==>
              && Scanning(chain) && EntriesRead(chain) == old(EntriesRead(chain))
              && k in Listing(EntriesRead(chain)) && k < Capacity(chain.vol.g, chain.dir)
              && Accepts(table, f, Listing(EntriesRead(chain))[k])
              && NoneBefore(table, f, EntriesRead(chain), k)
              && r.value == Found(Listing(EntriesRead(chain))[k].file, Listing(EntriesRead(chain))[k].stream,
                  PlaceOf(chain.vol.g, chain.dir, k))
  {
    hide Volume.Coherent, Volume.Unsaved, Volume.View, Geometry.Valid, Entries, PlaceOf, Good, Capacity, AllStore,
         IsDirectory, DirectoryEntryChain.Valid, WellFormed, ParseFile, ParseStream, IsEndMarker, Scanning, Listing,
         Accepts, Passed, NoneBefore, Filter.Part, Filter.Hash, Filter.Length, IsFile, IsStream, ParseSet;
    ghost var es := EntriesRead(chain);
    k := 0;
    while true
      invariant Scanning(chain) && EntriesRead(chain) == es
      invariant chain.vol.Valid() && chain.vol.Unsaved() <= old(chain.vol.Unsaved())
      invariant NoneBefore(table, f, es, chain.at)
      decreases |es| - chain.at
    {
      ghost var start := chain.at;
      var file;
      file, k := NextFileDirEntry(chain);
      if file.None? {
        NoneBeforeNext(table, f, es, start, |es|);
        return None, k;
      }
      NoneBeforeNext(table, f, es, start, k);
      HeadOf(table, f, es, k);
      SetOfListing(es, k);
      var e := NextRaw(chain);
      if e.None? || !IsStream(e.value.0) {
        assert false;
        return None, k;
      }
      var stream := ParseStream(e.value.0);
      if !f.Hash(stream.nameHash, file.value.0.attributes) || !f.Length(stream.nameLength) {
        OnlyOneFile(es, k, chain.at);
        NoneBeforeNext(table, f, es, k, chain.at);
        continue;
      }
      var verdict := MatchName(chain, table, f, stream.nameLength, k);
      if verdict == Broken {
        assert false;
        return None, k;
      }
      if verdict == Accepted {
        return Some(Found(file.value.0, stream, file.value.1)), k;
      }
      OnlyOneFile(es, k, chain.at);
      NoneBeforeNext(table, f, es, k, chain.at);
    }
  }

  lemma NoneYet(table: UpcaseMap, f: Filter, es: seq<RawEntry>)
    requires WellFormed(es)
    ensures NoneBefore(table, f, es, 0)
  {
  }

  /** What the filtered scan comes to is the first file with the name and the right hash. */
  lemma FoundIsFirst(table: UpcaseMap, f: Filter, es: seq<RawEntry>, name: seq<u16>, want: Option<Attributes>,
                     k: Option<nat>)
    requires WellFormed(es) && IsFor(table, f, name, want)
    requires match k
             case None => NoneBefore(table, f, es, |es|)
             case Some(j) => j in Listing(es) && Accepts(table, f, Listing(es)[j]) && NoneBefore(table, f, es, j)
    ensures FirstHashed(table, es, name, want, k)
  {
    hide Accepts, Matches, IsFor, HashRight;
    forall j | j in Listing(es)
      ensures Accepts(table, f, Listing(es)[j]) <==>
            && Matches(table, Listing(es)[j], name, want)
            && HashRight(table, Listing(es)[j])
    {
      AcceptsMatches(table, f, name, want, Listing(es)[j]);
    }
  }

  /** One step of `get_leaf_file_entry`: looks a name up in a directory. It finds the first file of that
      name with the right hash; that is the first file of that name exactly when the latter's hash is right,
      or there is none. */
  method FindFile(vol: Volume, table: UpcaseMap, cluster: nat, name: seq<u16>, want: Option<Attributes>,
                  ghost dir: seq<nat>)
    returns (r: Result<Option<Found>>, ghost k: Option<nat>)
    requires vol.Valid() && IsDirectory(vol.View().fat, vol.g, dir) && cluster == dir[0]
    requires AllStore(vol.g, dir) && WellFormed(EntriesOf(vol, dir))
    modifies vol.Footprint() - {vol}
    ensures vol.Valid() && vol.Unsaved() <= old(vol.Unsaved())
    ensures r.Ok? <==> IsLegal(name)
    ensures r.Err? ==> r == Err(InvalidFileName)
    ensures r.Ok? ==> (r.value.Some? <==> k.Some?) && FirstHashed(table, EntriesOf(vol, dir), name, want, k)
    ensures r.Ok? ==> forall m :: FirstMatch(table, EntriesOf(vol, dir), name, want, m) ==>
                        (k == m <==> (m.Some? ==> HashRight(table, Listing(EntriesOf(vol, dir))[m.value])))
    ensures r.Ok? && k.Some? ==>
              && k.value in Listing(EntriesOf(vol, dir)) && k.value < Capacity(vol.g, dir)
              && r.value.value == Found(Listing(EntriesOf(vol, dir))[k.value].file,
                                        Listing(EntriesOf(vol, dir))[k.value].stream,
                                        PlaceOf(vol.g, dir, k.value))
  {
    hide Volume.Coherent, Volume.Unsaved, Volume.View, Geometry.Valid, Entries, PlaceOf, Good, Capacity, AllStore,
         IsDirectory, DirectoryEntryChain.Valid, WellFormed, ParseFile, ParseStream, IsEndMarker, Listing, Accepts,
         NoneBefore, IsFor, FirstMatch, FirstHashed, HashRight, IsLegal;
    var filter := NewFilter(table, name, want);
    k := None;
    if filter.Err? {
      return Err(InvalidFileName), k;
    }
    ghost var es := EntriesOf(vol, dir);
    var chain := new DirectoryEntryChain(vol, cluster, dir);
    NoneYet(table, filter.value, es);
    var found;
    ghost var at;
    found, at := NextFileEntry(chain, table, filter.value);
    k := if found.Some? then Some(at) else None;
    FoundIsFirst(table, filter.value, es, name, want, k);
    forall m | FirstMatch(table, es, name, want, m)
      ensures m.Some? ==> m.value in Listing(es)
      ensures k == m <==> (m.Some? ==> HashRight(table, Listing(es)[m.value]))
    {
      MatchListed(table, es, name, want, m);
      HashedIsFirst(table, es, name, want, k, m);
    }
    r := Ok(found);
  }
}
