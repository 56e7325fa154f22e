/** Directories on the volume: finding room for an entry set, creating, rewriting and removing one
    (src/file_system.rs:483-546, 668-754, 784-810, 890-924; src/file.rs:352-420). */
module Directory {
  import opened Allocator
  import opened Bytes
  import opened Chains
  import opened DirEntry
  import opened DirPlace
  import opened DirReader
  import opened DirWriter
  import opened Disk
  import opened EntrySet
  import opened File
  import opened FileData
  import opened Names
  import opened Results
  import opened Touched
  import opened Volume

  // ---- finding free entries ----------------------------------------------------------------

  /** The search for `n` free entries has passed the first `i` without success; `s` is where the
      free entries just before `i` begin, if there are any. */
  ghost predicate Searched(es: seq<RawEntry>, i: nat, n: nat, s: Option<nat>) {
    && i <= |es|
    && (forall j: nat :: j + n <= i ==> !FreeEntries(es, j, n))
    && match s
       case None => i == 0 || InUse(es[i - 1])
       case Some(k) =>
         && k < i && i - k < n && (forall j :: k <= j < i ==> !InUse(es[j]))
         && (k == 0 || InUse(es[k - 1]))
  }

  lemma SearchedUsed(es: seq<RawEntry>, i: nat, n: nat, s: Option<nat>)
    requires Searched(es, i, n, s) && i < |es| && InUse(es[i]) && n > 0
    ensures Searched(es, i + 1, n, None)
  {
    forall j: nat | j + n <= i + 1 ensures !FreeEntries(es, j, n) {
      assert j + n == i + 1 ==> j <= i < j + n;
    }
  }

  lemma SearchedFree(es: seq<RawEntry>, i: nat, n: nat, s: Option<nat>, k: nat)
    requires Searched(es, i, n, s) && i < |es| && !InUse(es[i]) && n > 0 && k == if s.Some? then s.value else i
    ensures if i + 1 - k == n then FirstFit(es, k, n) else Searched(es, i + 1, n, Some(k))
  {
    forall j: nat | j < k ensures !FreeEntries(es, j, n) {
      assert j + n > i ==> j <= k - 1 < j + n;
    }
  }

  lemma SearchedAll(es: seq<RawEntry>, n: nat, s: Option<nat>)
    requires Searched(es, |es|, n, s) && n > 0
    ensures SearchResult(es, n, s)
  {
    FreeTailIs(es, if s.Some? then s.value else |es|);
  }

  lemma {:induction false} FreeTailIs(es: seq<RawEntry>, k: nat)
    requires k <= |es| && (forall i :: k <= i < |es| ==> !InUse(es[i])) && (k == 0 || InUse(es[k - 1]))
    ensures FreeTail(es) == k
  {
    if k < |es| {
      FreeTailIs(es[..|es| - 1], k);
    }
  }

  /** `find_empty_dir_entry_set`. */
  method FindEmpty(vol: Volume, cluster: nat, n: nat, ghost dir: seq<nat>) returns (r: Result<Location>, ghost k: nat)
    requires vol.Valid() && IsDirectory(vol.View().fat, vol.g, dir) && cluster == dir[0] && n > 0
    modifies vol.Footprint() - {vol}
    ensures vol.Valid() && IsDirectory(vol.View().fat, vol.g, dir) && vol.Unsaved() <= old(vol.Unsaved())
    ensures r.Ok? ==>
              k < Capacity(vol.g, dir) && r.value == PlaceOf(vol.g, dir, k) && SearchResult(EntriesOf(vol, dir), n, Some(k))
    ensures r.Err? ==> r == Err(DirectoryFull) && SearchResult(EntriesOf(vol, dir), n, None)
  {
    hide Volume.Coherent, Volume.Unsaved, Volume.View, Geometry.Valid, IsDirectory, Entries, PlaceOf, Good, Capacity,
         Searched, SearchResult, FirstFit, DirectoryEntryChain.Valid, AllStore;
    DirectoryStores(vol.View().fat, vol.g, dir);
    var entries := new DirectoryEntryChain(vol, cluster, dir);
    ghost var es := EntriesOf(vol, dir);
    var counter := 0;
    var start := None;
    k := 0;
    SearchedNone(es, n);
    while true
      invariant fresh(entries) && entries.vol == vol && entries.dir == dir && entries.numEntries == None
      invariant entries.Valid()
      invariant vol.Valid() && IsDirectory(vol.View().fat, vol.g, dir) && vol.Unsaved() <= old(vol.Unsaved())
      invariant entries.at <= Capacity(vol.g, dir)
      invariant Searched(es, entries.at, n, if start.Some? then Some(k) else None)
      invariant if start.Some? then k < Capacity(vol.g, dir) && start.value == PlaceOf(vol.g, dir, k)
                && entries.at - k == counter
                else counter == 0
      decreases Capacity(vol.g, dir) - entries.at
    {
      ghost var i := entries.at;
      var e := entries.Next();
      if e.None? {
        SearchedAll(es, n, if start.Some? then Some(k) else None);
        break;
      }
      if InUse(e.value.0) {
        SearchedUsed(es, i, n, if start.Some? then Some(k) else None);
        counter := 0;
        start := None;
      } else {
        SearchedFree(es, i, n, if start.Some? then Some(k) else None, if start.Some? then k else i);
        if start.None? {
          start := Some(e.value.1);
          k := i;
        }
        counter := counter + 1;
        if counter == n {
          FitIsResult(es, k, n);
          break;
        }
      }
    }
    r := if start.Some? then Ok(start.value) else Err(DirectoryFull);
  }

  lemma FitIsResult(es: seq<RawEntry>, k: nat, n: nat)
    requires FirstFit(es, k, n)
    ensures SearchResult(es, n, Some(k))
  {
  }

  lemma SearchedNone(es: seq<RawEntry>, n: nat)
    requires n > 0
    ensures Searched(es, 0, n, None)
  {
  }

  // ---- creating a set -------------------------------------------------------------------------

  /** A timestamp as stored: packed date and time, 10 ms increments, and the offset from UTC. */
  datatype Stamp = Stamp(packed: u32, increment10ms: byte, utcOffset: byte)

  function NewFile(units: nat, attributes: Attributes, t: Stamp): FileDirEntry
    requires 0 < units < 256
  {
    FileDirEntry(SetLength(units) - 1, 0, attributes, t.packed, t.packed, t.packed,
                 t.increment10ms, t.increment10ms, t.utcOffset, t.utcOffset, t.utcOffset)
  }

  /** What a new set is listed as; `sum` is the checksum it got. */
  function NewSet(table: UpcaseMap, name: seq<u16>, attributes: Attributes, flags: SecondaryFlags,
                  firstCluster: u32, valid: u64, length: u64, t: Stamp, sum: u16): FileSet
    requires 0 < |name| < 256
  {
    FileSet(NewFile(|name|, attributes, t).(setChecksum := sum),
            StreamEntry(flags, |name|, HashOf(Upcased(table, name)), valid, firstCluster, length),
            name)
  }

  /** The entries of a new set, byte by byte: all three times are `t`, and the units of the name follow, the
      last entry filled up with zeros. */
  ghost predicate NewEntries(set_: seq<RawEntry>, table: UpcaseMap, name: seq<u16>, attributes: nat, flags: nat,
                             firstCluster: nat, valid: nat, length: nat, t: Stamp) {
    && 3 <= |set_| && 15 * (|set_| - 3) < |name| <= 15 * (|set_| - 2)
    && NewFileBytes(set_[0], |set_| - 1, attributes, t)
    && NewStreamBytes(set_[1], |name|, HashOf(Upcased(table, name)), flags, firstCluster, valid, length)
    && forall j :: 2 <= j < |set_| ==>
         && set_[j][0] == 0xC1 && set_[j][1] == 0
         && forall i :: 0 <= i < 15 ==>
              Int16At(set_[j], 2 + 2 * i, if 15 * (j - 2) + i < |name| then name[15 * (j - 2) + i] else 0)
  }

  ghost predicate NewFileBytes(e: RawEntry, secondaryCount: nat, attributes: nat, t: Stamp) {
    && e[0] == 0x85 && e[1] as int == secondaryCount && Int16At(e, 4, attributes) && e[6] == 0 && e[7] == 0
    && Int32At(e, 8, t.packed) && Int32At(e, 12, t.packed) && Int32At(e, 16, t.packed)
    && e[20] == t.increment10ms && e[21] == t.increment10ms
    && e[22] == t.utcOffset && e[23] == t.utcOffset && e[24] == t.utcOffset
    && forall i :: 25 <= i < 32 ==> e[i] == 0
  }

  ghost predicate NewStreamBytes(e: RawEntry, units: nat, hash: nat, flags: nat, firstCluster: nat, valid: nat,
                                 length: nat) {
    && e[0] == 0xC0 && e[1] as int == flags && e[2] == 0 && e[3] as int == units && Int16At(e, 4, hash)
    && e[6] == 0 && e[7] == 0 && Int64At(e, 8, valid) && (forall i :: 16 <= i < 20 ==> e[i] == 0)
    && Int32At(e, 20, firstCluster) && Int64At(e, 24, length)
  }

  lemma BuiltBytes(table: UpcaseMap, name: seq<u16>, attributes: Attributes, flags: SecondaryFlags, firstCluster: u32,
                   valid: u64, length: u64, t: Stamp, sum: u16)
    requires 0 < |name| < 256
    ensures var f := NewSet(table, name, attributes, flags, firstCluster, valid, length, t, sum);
            NewEntries(BuildSet(f.file, f.stream, name), table, name, attributes, flags, firstCluster, valid, length, t)
  {
    hide HashOf, Upcased, SerializeFile, SerializeStream, SerializeName, Int16At, Int32At, Int64At;
    var f := NewSet(table, name, attributes, flags, firstCluster, valid, length, t, sum);
    var set_ := BuildSet(f.file, f.stream, name);
    FileBytes(f.file);
    StreamBytes(f.stream);
    forall j | 2 <= j < |set_|
      ensures set_[j][0] == 0xC1 && set_[j][1] == 0
      ensures forall i :: 0 <= i < 15 ==>
                Int16At(set_[j], 2 + 2 * i, if 15 * (j - 2) + i < |name| then name[15 * (j - 2) + i] else 0)
    {
      assert set_[j] == SerializeName(0, Part(name, j - 2));
      PartBytes(name, j - 2);
    }
  }

  /** The new set is at `k`. */
  ghost predicate NewEntriesAt(es: seq<RawEntry>, k: nat, table: UpcaseMap, name: seq<u16>, attributes: nat, flags: nat,
                               firstCluster: nat, valid: nat, length: nat, t: Stamp) {
    exists n :: k <= n <= |es| && NewEntries(es[k..n], table, name, attributes, flags, firstCluster, valid, length, t)
  }

  lemma BuiltThere(es: seq<RawEntry>, k: nat, table: UpcaseMap, name: seq<u16>, attributes: Attributes,
                   flags: SecondaryFlags, firstCluster: u32, valid: u64, length: u64, t: Stamp, sum: u16)
    requires 0 < |name| < 256
    requires var f := NewSet(table, name, attributes, flags, firstCluster, valid, length, t, sum);
             StoredAt(es, k, BuildSet(f.file, f.stream, name))
    ensures NewEntriesAt(es, k, table, name, attributes, flags, firstCluster, valid, length, t)
  {
    hide BuildSet, NewSet, NewEntries;
    var f := NewSet(table, name, attributes, flags, firstCluster, valid, length, t, sum);
    BuiltBytes(table, name, attributes, flags, firstCluster, valid, length, t, sum);
    assert es[k..k + |BuildSet(f.file, f.stream, name)|] == BuildSet(f.file, f.stream, name);
  }

  lemma PartBytes(name: seq<u16>, k: nat)
    ensures var e := SerializeName(0, Part(name, k));
            && e[0] == 0xC1 && e[1] == 0
            && forall i :: 0 <= i < 15 ==> Int16At(e, 2 + 2 * i, if 15 * k + i < |name| then name[15 * k + i] else 0)
  {
    hide SerializeName, Int16At;
    var e, u := SerializeName(0, Part(name, k)), Part(name, k);
    NameBytes(0, u);
    forall i | 0 <= i < 15 ensures Int16At(e, 2 + 2 * i, if 15 * k + i < |name| then name[15 * k + i] else 0) {
      assert Int16At(e, 2 + 2 * i, u[i]);
    }
  }

  /** The directory has room for a set of `n` entries: the search for it will not come back with a
      run that is too short or that crosses into another cluster. */
  ghost predicate HasRoom(g: Geometry, es: seq<RawEntry>, dir: seq<nat>, n: nat)
    requires g.Valid()
  {
    forall k :: SearchResult(es, n, Some(k)) ==> FreeEntries(es, k, n) && InOneCluster(g, dir, k, n)
  }

  /** The first `i` entries of a set have been stored at `k`. */
  ghost predicate Stored(es0: seq<RawEntry>, es: seq<RawEntry>, k: nat, set_: seq<RawEntry>, i: nat) {
    && i <= |set_| && k + |set_| <= |es0| && |es| == |es0|
    && forall j :: 0 <= j < |es| ==> es[j] == if k <= j < k + i then set_[j - k] else es0[j]
  }

  ghost predicate StoredAt(es: seq<RawEntry>, k: nat, set_: seq<RawEntry>) {
    k + |set_| <= |es| && es[k..k + |set_|] == set_
  }

  lemma StoredNext(es0: seq<RawEntry>, es: seq<RawEntry>, k: nat, set_: seq<RawEntry>, i: nat)
    requires Stored(es0, es, k, set_, i) && i < |set_|
    ensures Stored(es0, es[k + i := set_[i]], k, set_, i + 1)
  {
  }

  /** The whole set is stored and has its checksum. */
  lemma SetCreated(es0: seq<RawEntry>, es1: seq<RawEntry>, k: nat, file: FileDirEntry, stream: StreamEntry,
                   name: seq<u16>)
    requires WellFormed(es0) && FirstFit(es0, k, SetLength(|name|))
    requires 0 < |name| < 256 && stream.nameLength == |name| && file.secondaryCount == SetLength(|name|) - 1
    requires Stored(es0, es1, k, BuildSet(file, stream, name), SetLength(|name|))
    ensures var n, sum := SetLength(|name|), Checksum(Flat(BuildSet(file, stream, name)));
            && SetPut(es0, es1[k := WithChecksum(SerializeFile(file), sum)], k, n,
                FileSet(file.(setChecksum := sum), stream, name))
            && StoredAt(es1[k := WithChecksum(SerializeFile(file), sum)], k,
                BuildSet(file.(setChecksum := sum), stream, name))
            && k !in Listing(es0)
  {
    hide SerializeFile, BuildSet, ParseSet, Checksum, Flat, InUse, SetAt, Splice, WellFormed, FirstFit, SetSize,
         ChecksumRight, ChangedWithin, Listing;
    var n, set_ := SetLength(|name|), BuildSet(file, stream, name);
    var sum := Checksum(Flat(set_));
    var file' := file.(setChecksum := sum);
    var es2 := es1[k := WithChecksum(SerializeFile(file), sum)];
    ChecksumSerialized(file, sum);
    HeadRebuilt(file, file', stream, name);
    StoredSplice(es0, es1, k, set_, SerializeFile(file'));
    BuildReadsBack(es2, k, file', stream, name);
    AddSet(es0, k, BuildSet(file', stream, name));
    AllInUse(es2, k);
    SealedRight(es1, k, n);
  }

  lemma HeadRebuilt(file: FileDirEntry, file': FileDirEntry, stream: StreamEntry, name: seq<u16>)
    ensures BuildSet(file, stream, name)[0] == SerializeFile(file)
    ensures BuildSet(file', stream, name) == [SerializeFile(file')] + BuildSet(file, stream, name)[1..]
  {
    hide SerializeFile, SerializeStream, SerializeName;
  }

  /** With the whole set stored, changing its first entry is storing the set that starts with that entry. */
  lemma StoredSplice(es0: seq<RawEntry>, es1: seq<RawEntry>, k: nat, set_: seq<RawEntry>, e: RawEntry)
    requires Stored(es0, es1, k, set_, |set_|) && set_ != []
    ensures var set', es2 := [e] + set_[1..], es1[k := e];
            && es1[k..k + |set_|] == set_ && es1[k] == set_[0] && es2 == Splice(es0, k, set') && es2[k..k + |set_|] == set'
            && ChangedWithin(es0, es2, k, |set_|)
  {
    var set', es2 := [e] + set_[1..], es1[k := e];
    assert forall j :: 0 <= j < |es2| ==> es2[j] == Splice(es0, k, set')[j];
  }

  lemma StoredNothing(es: seq<RawEntry>, k: nat, set_: seq<RawEntry>)
    requires k + |set_| <= |es|
    ensures Stored(es, es, k, set_, 0)
  {
  }

  /** How far the name has been written: `i` parts of 15 units. */
  ghost predicate PartsDone(name: seq<u16>, rest: seq<u16>, i: nat) {
    i <= Ceil15(|name|) && rest == if 15 * i <= |name| then name[15 * i..] else []
  }

  lemma PartsNext(name: seq<u16>, rest: seq<u16>, i: nat, taken: nat)
    requires PartsDone(name, rest, i) && rest != [] && taken == if |rest| < 15 then |rest| else 15
    ensures i < Ceil15(|name|) && PartsDone(name, rest[taken..], i + 1) && Part(rest, 0) == Part(name, i)
  {
    PartOfRest(name, i);
  }

  lemma PartsNone(name: seq<u16>)
    ensures PartsDone(name, name, 0)
  {
  }

  lemma PartsAll(name: seq<u16>, rest: seq<u16>, i: nat)
    requires PartsDone(name, rest, i) && rest == []
    ensures i == Ceil15(|name|)
  {
  }

  lemma SetPart(file: FileDirEntry, stream: StreamEntry, name: seq<u16>, i: nat)
    requires i < Ceil15(|name|)
    ensures var set_ := BuildSet(file, stream, name);
            set_[2 + i] == SerializeName(0, Part(name, i))
  {
  }

  /** Stores entry `n` of a new set, of which those in front are stored. */
  method AddNext(vol: Volume, touched: FileDirty, writer: DirSetWriter, raw: RawEntry, isFileDir: bool,
                 ghost set_: seq<RawEntry>, ghost n: nat, ghost es0: seq<RawEntry>)
    requires Writable(vol, touched, writer.dir) && writer.Valid() && writer.g == vol.g
    requires n < |set_| && writer.entries == set_[..n] && raw == set_[n] && (isFileDir <==> n == 0)
    requires InOneCluster(vol.g, writer.dir, writer.first, |set_|)
    requires Stored(es0, EntriesOf(vol, writer.dir), writer.first, set_, n)
    modifies writer, vol.Footprint(), touched
    ensures Writable(vol, touched, writer.dir) && touched.isDirEntryDirty == old(touched.isDirEntryDirty)
    ensures writer.Valid() && writer.entries == set_[..n + 1]
    ensures Stored(es0, EntriesOf(vol, writer.dir), writer.first, set_, n + 1)
    ensures OnlyData(old(vol.View()), vol.View(), writer.dir)
    ensures old(touched.inserted) <= touched.inserted
    ensures vol.Unsaved() <= old(vol.Unsaved()) + touched.inserted
  {
    hide Volume.Coherent, Volume.Unsaved, Volume.View, Geometry.Valid, FileDirty.Valid, Entries, PlaceOf, Good,
         Capacity, AllStore, Distinct, OnlyData, Abs, DirSetWriter.Valid, Stored, ClusterNo;
    StoredNext(es0, EntriesOf(vol, writer.dir), writer.first, set_, n);
    writer.Add(vol, touched, raw, isFileDir);
    assert set_[..n + 1] == set_[..n] + [set_[n]];
  }

  /** `i` parts of the name have been taken from `chunks` and stored. */
  ghost predicate Writing(vol: Volume, touched: FileDirty, writer: DirSetWriter, chunks: Utf16Chunks,
                          set_: seq<RawEntry>, name: seq<u16>, es0: seq<RawEntry>, i: nat)
    reads vol, vol.Footprint(), touched, writer, chunks
  {
    && Writable(vol, touched, writer.dir) && writer.Valid() && writer.g == vol.g
    && i <= Ceil15(|name|) && PartsDone(name, chunks.rest, i) && 2 + i <= |set_| && writer.entries == set_[..2 + i]
    && InOneCluster(vol.g, writer.dir, writer.first, |set_|)
    && Stored(es0, EntriesOf(vol, writer.dir), writer.first, set_, 2 + i)
  }

  /** Stores one part of the name; `false` when there is none left. */
  method WritePart(vol: Volume, touched: FileDirty, writer: DirSetWriter, chunks: Utf16Chunks, name: seq<u16>,
                   ghost file: FileDirEntry, ghost stream: StreamEntry, ghost es0: seq<RawEntry>, ghost i: nat)
    returns (more: bool)
    requires Writing(vol, touched, writer, chunks, BuildSet(file, stream, name), name, es0, i)
    modifies writer, chunks, vol.Footprint(), touched
    ensures more ==> Writing(vol, touched, writer, chunks, BuildSet(file, stream, name), name, es0, i + 1)
    ensures !more ==>
              Writing(vol, touched, writer, chunks, BuildSet(file, stream, name), name, es0, i) && i == Ceil15(|name|)
    ensures Writable(vol, touched, writer.dir) && touched.isDirEntryDirty == old(touched.isDirEntryDirty)
    ensures OnlyData(old(vol.View()), vol.View(), writer.dir)
    ensures old(touched.inserted) <= touched.inserted
    ensures vol.Unsaved() <= old(vol.Unsaved()) + touched.inserted
  {
    hide Volume.Coherent, Volume.Unsaved, Volume.View, Geometry.Valid, FileDirty.Valid, Entries, PlaceOf, Good,
         Capacity, AllStore, Distinct, OnlyData, Abs, DirSetWriter.Valid, Stored, PartsDone, SerializeFile,
         SerializeStream, SerializeName, Part, ClusterNo, InOneCluster, BuildSet, Ceil15;
    OnlyDataNone(vol.View(), writer.dir);
    ghost var rest := chunks.rest;
    var chunk, len := chunks.NextChunk();
    if len.None? {
      PartsAll(name, rest, i);
      return false;
    }
    PartsNext(name, rest, i, len.value);
    SetPart(file, stream, name, i);
    AddNext(vol, touched, writer, SerializeName(0, chunk), false, BuildSet(file, stream, name), 2 + i, es0);
    more := true;
  }

  /** Stores the name of a new set, 15 units to an entry. */
  method WriteName(vol: Volume, touched: FileDirty, writer: DirSetWriter, name: seq<u16>,
                   ghost file: FileDirEntry, ghost stream: StreamEntry, ghost es0: seq<RawEntry>)
    requires Writable(vol, touched, writer.dir) && writer.Valid() && writer.g == vol.g
    requires writer.entries == BuildSet(file, stream, name)[..2]
    requires InOneCluster(vol.g, writer.dir, writer.first, SetLength(|name|))
    requires Stored(es0, EntriesOf(vol, writer.dir), writer.first, BuildSet(file, stream, name), 2)
    modifies writer, vol.Footprint(), touched
    ensures Writable(vol, touched, writer.dir) && touched.isDirEntryDirty == old(touched.isDirEntryDirty)
    ensures writer.Valid() && writer.entries == BuildSet(file, stream, name)
    ensures Stored(es0, EntriesOf(vol, writer.dir), writer.first, BuildSet(file, stream, name), SetLength(|name|))
    ensures OnlyData(old(vol.View()), vol.View(), writer.dir)
    ensures old(touched.inserted) <= touched.inserted
    ensures vol.Unsaved() <= old(vol.Unsaved()) + touched.inserted
  {
    hide Volume.Coherent, Volume.Unsaved, Volume.View, Geometry.Valid, FileDirty.Valid, Entries, PlaceOf, Good,
         Capacity, AllStore, Distinct, OnlyData, Abs, DirSetWriter.Valid, Stored, PartsDone, ClusterNo, InOneCluster,
         BuildSet, Ceil15;
    ghost var dir, set_, v0 := writer.dir, BuildSet(file, stream, name), vol.View();
    OnlyDataNone(v0, dir);
    var chunks := new Utf16Chunks(name);
    PartsNone(name);
    ghost var i := 0;
    var more := true;
    while more
      invariant fresh(chunks) && Writing(vol, touched, writer, chunks, set_, name, es0, i)
      invariant !more ==> i == Ceil15(|name|)
      invariant touched.isDirEntryDirty == old(touched.isDirEntryDirty) && OnlyData(v0, vol.View(), dir)
      invariant old(touched.inserted) <= touched.inserted
      invariant vol.Unsaved() <= old(vol.Unsaved()) + touched.inserted
      decreases more, Ceil15(|name|) - i
    {
      ghost var v2 := vol.View();
      more := WritePart(vol, touched, writer, chunks, name, file, stream, es0, i);
      OnlyDataTrans(v0, v2, vol.View(), dir);
      if more {
        i := i + 1;
      }
    }
    assert set_[..|set_|] == set_;
  }

  lemma OnlyDataNone(v: Vol, dir: seq<nat>)
    ensures OnlyData(v, v, dir)
  {
  }

  /** Stores the entries of a new set one by one, then the checksum. */
  method WriteSet(vol: Volume, touched: FileDirty, loc: Location, file: FileDirEntry, stream: StreamEntry,
                  name: seq<u16>,
                  ghost dir: seq<nat>, ghost k: nat)
    requires Writable(vol, touched, dir) && WellFormed(EntriesOf(vol, dir))
    requires 0 < |name| < 256 && stream.nameLength == |name| && file.secondaryCount == SetLength(|name|) - 1
    requires FirstFit(EntriesOf(vol, dir), k, SetLength(|name|)) && InOneCluster(vol.g, dir, k, SetLength(|name|))
    requires k < Capacity(vol.g, dir) && loc == PlaceOf(vol.g, dir, k)
    modifies vol.Footprint(), touched
    ensures Writable(vol, touched, dir) && touched.isDirEntryDirty == old(touched.isDirEntryDirty)
    ensures var sum := Checksum(Flat(BuildSet(file, stream, name)));
            && SetPut(old(EntriesOf(vol, dir)), EntriesOf(vol, dir), k, SetLength(|name|),
                FileSet(file.(setChecksum := sum), stream, name))
            && StoredAt(EntriesOf(vol, dir), k, BuildSet(file.(setChecksum := sum), stream, name))
            && k !in Listing(old(EntriesOf(vol, dir)))
    ensures OnlyData(old(vol.View()), vol.View(), dir)
    ensures old(touched.inserted) <= touched.inserted
    ensures vol.Unsaved() <= old(vol.Unsaved()) + touched.inserted
  {
    hide Volume.Coherent, Volume.Unsaved, Volume.View, Geometry.Valid, FileDirty.Valid, Entries, PlaceOf, Good,
         Capacity, AllStore, Distinct, WellFormed, OnlyData, Abs, FirstFit, DirSetWriter.Valid, SetPut, Stored,
         Checksum, Flat, PartsDone, SerializeFile, SerializeStream, SerializeName, Part, ClusterNo, StoredAt;
    ghost var es0, set_ := EntriesOf(vol, dir), BuildSet(file, stream, name);
    ghost var v0 := vol.View();
    var writer := new DirSetWriter(vol.g, loc, dir, k);
    StoredNothing(es0, k, set_);
    var fileDir := SerializeFile(file);
    AddNext(vol, touched, writer, fileDir, true, set_, 0, es0);
    ghost var v1 := vol.View();
    AddNext(vol, touched, writer, SerializeStream(stream), false, set_, 1, es0);
    ghost var v2 := vol.View();
    OnlyDataTrans(v0, v1, v2, dir);
    WriteName(vol, touched, writer, name, file, stream, es0);
    ghost var v3 := vol.View();
    OnlyDataTrans(v0, v2, v3, dir);
    SetCreated(es0, EntriesOf(vol, dir), k, file, stream, name);
    writer.Finish(vol, touched, fileDir);
    OnlyDataTrans(v0, v3, vol.View(), dir);
  }

  /** The search and the room there is. */
  lemma RoomFound(g: Geometry, es: seq<RawEntry>, dir: seq<nat>, k: nat, n: nat)
    requires g.Valid() && HasRoom(g, es, dir, n) && SearchResult(es, n, Some(k))
    ensures FirstFit(es, k, n) && InOneCluster(g, dir, k, n) && SomewhereFree(es, n)
  {
  }

  lemma NothingFound(es: seq<RawEntry>, n: nat)
    requires SearchResult(es, n, None)
    ensures !SomewhereFree(es, n)
  {
  }

  /** There is room for `n` entries somewhere in the directory. */
  ghost predicate SomewhereFree(es: seq<RawEntry>, n: nat) {
    exists k :: FreeEntries(es, k, n)
  }

  /** `create_file_dir_entry_at`. On a legal name it takes the first fit and adds exactly the new
      file to the listing, with the right checksum and name hash; it changes no other entry and
      nothing outside the directory. */
  method CreateSet(vol: Volume, touched: FileDirty, table: UpcaseMap, name: seq<u16>, cluster: nat, firstCluster: u32,
                   attributes: Attributes, flags: SecondaryFlags, valid: u64, length: u64, t: Stamp, ghost dir: seq<nat>)
    returns (r: Result<Location>, ghost k: nat, ghost sum: u16)
    requires Writable(vol, touched, dir) && IsDirectory(vol.View().fat, vol.g, dir) && cluster == dir[0]
    requires WellFormed(EntriesOf(vol, dir)) && |name| <= 255
    requires IsLegal(name) ==> HasRoom(vol.g, EntriesOf(vol, dir), dir, SetLength(|name|))
    modifies vol.Footprint(), touched
    ensures Writable(vol, touched, dir) && touched.isDirEntryDirty == old(touched.isDirEntryDirty)
    ensures r.Ok? <==> IsLegal(name) && SomewhereFree(old(EntriesOf(vol, dir)), SetLength(|name|))
    ensures r.Err? ==> r.error == (if IsLegal(name) then DirectoryFull else InvalidFileName)
                        && vol.flat == old(vol.flat) && vol.Unsaved() <= old(vol.Unsaved())
    ensures r.Ok? ==>
              && 0 < |name| && k < Capacity(vol.g, dir) && r.value == PlaceOf(vol.g, dir, k)
              && InOneCluster(vol.g, dir, k, SetLength(|name|))
              && FirstFit(old(EntriesOf(vol, dir)), k, SetLength(|name|))
              && k !in Listing(old(EntriesOf(vol, dir)))
              && SetPut(old(EntriesOf(vol, dir)), EntriesOf(vol, dir), k, SetLength(|name|),
                        NewSet(table, name, attributes, flags, firstCluster, valid, length, t, sum))
              && NewEntriesAt(EntriesOf(vol, dir), k, table, name, attributes, flags, firstCluster, valid, length, t)
    ensures OnlyData(old(vol.View()), vol.View(), dir)
    ensures old(touched.inserted) <= touched.inserted
    ensures vol.Unsaved() <= old(vol.Unsaved()) + touched.inserted
  {
    hide Volume.Coherent, Volume.Unsaved, Volume.View, Geometry.Valid, FileDirty.Valid, IsDirectory, Entries,
         PlaceOf, Good, Capacity, AllStore, Distinct, WellFormed, OnlyData, Abs, HasRoom, SomewhereFree, FirstFit,
         SearchResult, InOneCluster, SetPut, Checksum, Flat, BuildSet, HashOf, StoredAt, NewEntriesAt;
    OnlyDataNone(vol.View(), dir);
    var enc := EncodeAndHash(table, name);
    k, sum := 0, 0;
    if enc.Err? {
      return Err(InvalidFileName), k, sum;
    }
    var n := SetLength(|name|);
    r, k := FindEmpty(vol, cluster, n, dir);
    if r.Err? {
      NothingFound(EntriesOf(vol, dir), n);
      return;
    }
    RoomFound(vol.g, EntriesOf(vol, dir), dir, k, n);
    var file := NewFile(|name|, attributes, t);
    var stream := StreamEntry(flags, |name|, enc.value.0, valid, firstCluster, length);
    sum := Checksum(Flat(BuildSet(file, stream, name)));
    WriteSet(vol, touched, r.value, file, stream, name, dir, k);
    BuiltThere(EntriesOf(vol, dir), k, table, name, attributes, flags, firstCluster, valid, length, t, sum);
  }
}
