/** Rewriting and removing entry sets (src/file.rs:352-420, src/file_system.rs:483-536, 784-810). */
module DirUpdate {
  import opened Allocator
  import opened Bytes
  import opened Chains
  import opened DirEntry
  import opened Directory
  import opened DirPlace
  import opened DirReader
  import opened DirWriter
  import opened Disk
  import opened EntrySet
  import opened File
  import opened FileData
  import opened Results
  import opened Touched
  import opened Volume

  /** A whole set that the machinery can rewrite: listed at `k`, `n` entries long, in one cluster. */
  ghost predicate SetHere(g: Geometry, es: seq<RawEntry>, dir: seq<nat>, k: nat, n: nat)
    requires g.Valid()
  {
    WellFormed(es) && SetAt(es, k) && n == SetSize(es, k) && InOneCluster(g, dir, k, n)
  }

  /** `i` entries of the set at `k` have been gone through; the first two are rewritten. */
  ghost predicate Rewriting(es0: seq<RawEntry>, es: seq<RawEntry>, k: nat, i: nat, file: RawEntry, stream: RawEntry)
    requires k + 2 <= |es0|
  {
    es == if i == 0 then es0 else if i == 1 then es0[k := file] else es0[k := file][k + 1 := stream]
  }

  /** What a set is to record from now on. `File::flush` also sets the times and the flags;
      `truncate_file` leaves those alone. */
  datatype Change = Change(firstCluster: u32, valid: u64, length: u64, flags: Option<SecondaryFlags>, time: Option<Stamp>)

  function NewFileEntry(e: RawEntry, c: Change): (r: RawEntry)
    requires IsFile(e)
    ensures IsFile(r)
  {
    if c.time.None? then e
    else
      var t := c.time.value;
      SerializeFile(ParseFile(e).(modifiedTimestamp := t.packed, modified10ms := t.increment10ms,
          modifiedUtcOffset := t.utcOffset,
                                  accessedTimestamp := t.packed, accessedUtcOffset := t.utcOffset))
  }

  function NewStreamEntry(e: RawEntry, c: Change): (r: RawEntry)
    ensures IsStream(r)
  {
    SerializeStream(ParseStream(e).(firstCluster := c.firstCluster, validDataLength := c.valid, dataLength := c.length,
                                    flags := if c.flags.Some? then c.flags.value else ParseStream(e).flags))
  }

  /** The file entry `e'` is `e` with `t` for the time of modification and of access, and another checksum;
      attributes that are not known, and what is in no field, are gone. */
  ghost predicate Restamped(e: RawEntry, e': RawEntry, t: Stamp) {
    && e'[0] == 0x85 && e'[1] == e[1]
    && e'[4] as int == e[4] as int % 8 + e[4] as int / 16 % 4 * 16 && e'[5] == 0 && e'[6] == 0 && e'[7] == 0
    && e'[8..12] == e[8..12] && Int32At(e', 12, t.packed) && Int32At(e', 16, t.packed)
    && e'[20] == e[20] && e'[21] == t.increment10ms
    && e'[22] == e[22] && e'[23] == t.utcOffset && e'[24] == t.utcOffset
    && forall i :: 25 <= i < 32 ==> e'[i] == 0
  }

  /** Only the checksum of the file entry `e` is another in `e'`. */
  ghost predicate Unstamped(e: RawEntry, e': RawEntry) {
    forall i :: 0 <= i < 32 && i != 2 && i != 3 ==> e'[i] == e[i]
  }

  /** The stream entry `e'` is `e` with these lengths, first cluster and flags. */
  ghost predicate Repointed(e: RawEntry, e': RawEntry, first: nat, valid: nat, length: nat, flags: nat) {
    && e'[0] == 0xC0 && e'[1] as int == flags && e'[2] == 0 && e'[3] == e[3] && e'[4..6] == e[4..6]
    && e'[6] == 0 && e'[7] == 0 && Int64At(e', 8, valid)
    && (forall i :: 16 <= i < 20 ==> e'[i] == 0)
    && Int32At(e', 20, first) && Int64At(e', 24, length)
  }

  /** What the first two entries of the set at `k` say after a change. */
  ghost predicate SaysNow(es: seq<RawEntry>, es': seq<RawEntry>, k: nat, c: Change) {
    && k + 1 < |es| && |es'| == |es|
    && (if c.time.Some? then Restamped(es[k], es'[k], c.time.value) else Unstamped(es[k], es'[k]))
    && Repointed(es[k + 1], es'[k + 1], c.firstCluster, c.valid, c.length,
                 if c.flags.Some? then c.flags.value as int else es[k + 1][1] as int % 4)
  }

  lemma FourBytes(a: RawEntry, b: RawEntry, i: nat, v: nat)
    requires i + 4 <= 32 && Int32At(a, i, v) && Int32At(b, i, v)
    ensures a[i..i + 4] == b[i..i + 4]
  {
  }

  lemma Known(lo: int)
    requires 0 <= lo < 256
    ensures 0 <= lo % 8 + lo / 16 % 4 * 16 < 256
  {
  }

  lemma StampedBytes(e: RawEntry, c: Change, sum: u16)
    requires IsFile(e) && c.time.Some?
    ensures Restamped(e, WithChecksum(NewFileEntry(e, c), sum), c.time.value)
  {
    hide ParseFile, SerializeFile, Int32At;
    var t := c.time.value;
    var f := ParseFile(e).(modifiedTimestamp := t.packed, modified10ms := t.increment10ms,
                           modifiedUtcOffset := t.utcOffset, accessedTimestamp := t.packed,
                           accessedUtcOffset := t.utcOffset);
    FileFields(e);
    FileBytes(f);
    var r := SerializeFile(f);
    var r' := WithChecksum(r, sum);
    assert forall i :: 0 <= i < 32 && i != 2 && i != 3 ==> r'[i] == r[i];
    Known(e[4]);
    KeptInt(r, r', 8, f.createTimestamp);
    KeptInt(r, r', 12, t.packed);
    KeptInt(r, r', 16, t.packed);
    FourBytes(r', e, 8, f.createTimestamp);
  }

  lemma KeptInt(a: RawEntry, b: RawEntry, i: nat, v: nat)
    requires 4 <= i && i + 4 <= 32 && Int32At(a, i, v) && forall j :: 4 <= j < 32 ==> b[j] == a[j]
    ensures Int32At(b, i, v)
  {
  }

  lemma UnstampedBytes(e: RawEntry, c: Change, sum: u16)
    requires IsFile(e) && c.time.None?
    ensures Unstamped(e, WithChecksum(NewFileEntry(e, c), sum))
  {
  }

  lemma RepointedBytes(e: RawEntry, c: Change)
    ensures Repointed(e, NewStreamEntry(e, c), c.firstCluster, c.valid, c.length,
                      if c.flags.Some? then c.flags.value as int else e[1] as int % 4)
  {
    hide ParseStream, SerializeStream, Int32At, Int64At;
    var s := ParseStream(e).(firstCluster := c.firstCluster, validDataLength := c.valid, dataLength := c.length,
                             flags := if c.flags.Some? then c.flags.value else ParseStream(e).flags);
    StreamFields(e);
    StreamBytes(s);
    var r := SerializeStream(s);
    assert r[4..6] == e[4..6];
  }

  /** The file as listed after a change; `sum` is the checksum it got. */
  function Changed(f: FileSet, c: Change, sum: u16): FileSet {
    FileSet((if c.time.None? then f.file
             else f.file.(modifiedTimestamp := c.time.value.packed, modified10ms := c.time.value.increment10ms,
                          modifiedUtcOffset := c.time.value.utcOffset, accessedTimestamp := c.time.value.packed,
                          accessedUtcOffset := c.time.value.utcOffset)).(setChecksum := sum),
            f.stream.(firstCluster := c.firstCluster, validDataLength := c.valid, dataLength := c.length,
                      flags := if c.flags.Some? then c.flags.value else f.stream.flags),
            f.name)
  }

  /** Parsing the rewritten entries gives the changed file. */
  lemma NewEntriesParse(file: RawEntry, stream: RawEntry, c: Change, sum: u16, name: seq<u16>)
    requires IsFile(file) && IsStream(stream)
    ensures FileSet(ParseFile(NewFileEntry(file, c)).(setChecksum := sum), ParseStream(NewStreamEntry(stream, c)), name)
            == Changed(FileSet(ParseFile(file), ParseStream(stream), name), c, sum)
    ensures NewFileEntry(file, c)[1] == file[1] && NewStreamEntry(stream, c)[3] == stream[3]
  {
    hide ParseFile, ParseStream, SerializeFile, SerializeStream;
    FileHead(NewFileEntry(file, c));
    FileHead(file);
    StreamHead(NewStreamEntry(stream, c));
    StreamHead(stream);
    if c.time.Some? {
      FileRoundTrip(ParseFile(file).(modifiedTimestamp := c.time.value.packed,
                                            modified10ms := c.time.value.increment10ms,
                                                modifiedUtcOffset := c.time.value.utcOffset,
                                     accessedTimestamp := c.time.value.packed, accessedUtcOffset := c.time.value.utcOffset));
    }
    StreamRoundTrip(ParseStream(stream).(firstCluster := c.firstCluster, validDataLength := c.valid, dataLength := c.length,
                                         flags := if c.flags.Some? then c.flags.value else ParseStream(stream).flags));
  }

  lemma FileHead(e: RawEntry)
    ensures ParseFile(e).secondaryCount == e[1]
  {
  }

  lemma StreamHead(e: RawEntry)
    ensures ParseStream(e).nameLength == e[3]
  {
  }

  /** The step of the rewriting loops: entry `i` of the set has been read; it is replaced by `raw`
      when `store` is set and only counted into the checksum otherwise. */
  method Step(vol: Volume, touched: FileDirty, writer: DirSetWriter, chain: DirectoryEntryChain, raw: RawEntry,
              store: bool, i: nat)
    requires Writable(vol, touched, writer.dir) && writer.Valid() && writer.g == vol.g && chain.Valid()
    requires chain.vol == vol && chain.dir == writer.dir
    requires chain.at == writer.first + i + 1 && |writer.entries| == i
    requires InOneCluster(vol.g, writer.dir, writer.first, i + 1)
    requires writer.entries == EntriesOf(vol, writer.dir)[writer.first..writer.first + i]
    requires !store ==> raw == EntriesOf(vol, writer.dir)[writer.first + i]
    modifies writer, touched, vol.Footprint()
    ensures Writable(vol, touched, writer.dir) && writer.Valid() && chain.Valid()
    ensures touched.isDirEntryDirty == old(touched.isDirEntryDirty)
    ensures EntriesOf(vol, writer.dir) == old(EntriesOf(vol, writer.dir))[writer.first + i := raw]
    ensures writer.entries == EntriesOf(vol, writer.dir)[writer.first..writer.first + i + 1]
    ensures OnlyData(old(vol.View()), vol.View(), writer.dir)
    ensures old(touched.inserted) <= touched.inserted
    ensures vol.Unsaved() <= old(vol.Unsaved()) + touched.inserted
  {
    hide Volume.Coherent, Volume.Unsaved, Volume.View, Geometry.Valid, FileDirty.Valid, Entries, PlaceOf, Good,
         Capacity, AllStore, Distinct, OnlyData, DirSetWriter.Valid, DirectoryEntryChain.Valid, ClusterNo, Reading;
    ghost var dir, k := writer.dir, writer.first;
    ghost var v0, es0 := vol.View(), EntriesOf(vol, dir);
    ReadingNow(chain);
    if store {
      writer.Add(vol, touched, raw, i == 0);
      DataFat(v0, vol.View(), dir);
      ReadOn(chain, v0.fat, es0);
    } else {
      writer.AddNoWrite(raw, i == 0);
      OnlyDataNone(v0, dir);
    }
    assert EntriesOf(vol, dir)[k..k + i + 1] == es0[k..k + i] + [raw];
  }

  lemma DataFat(v: Vol, v': Vol, cs: seq<nat>)
    requires OnlyData(v, v', cs)
    ensures v'.fat == v.fat && v'.alloc == v.alloc
  {
  }

  lemma RewritingStep(es0: seq<RawEntry>, es: seq<RawEntry>, k: nat, i: nat, file: RawEntry, stream: RawEntry,
                      raw: RawEntry)
    requires k + 2 <= |es0| && k + i < |es0| && Rewriting(es0, es, k, i, file, stream)
    requires raw == if i == 0 then file else if i == 1 then stream else es0[k + i]
    ensures k + i < |es| && Rewriting(es0, es[k + i := raw], k, i + 1, file, stream)
  {
  }

  lemma NotYetRewritten(es0: seq<RawEntry>, es: seq<RawEntry>, k: nat, i: nat, file: RawEntry, stream: RawEntry)
    requires k + 2 <= |es0| && k + i < |es0| && Rewriting(es0, es, k, i, file, stream)
    ensures k + i < |es| && es[k + i] == es0[k + i]
  {
  }

  lemma HereFacts(g: Geometry, es: seq<RawEntry>, dir: seq<nat>, k: nat, n: nat)
    requires g.Valid() && SetHere(g, es, dir, k, n) && |es| == Capacity(g, dir)
    ensures 3 <= n && k + n <= Capacity(g, dir) && IsFile(es[k]) && WellFormed(es) && k in Listing(es)
    ensures forall i :: 0 <= i <= n ==> InOneCluster(g, dir, k, i)
  {
    hide ClusterNo, Capacity;
  }

  /** All entries have been gone through: what the set then says, once it has its checksum. */
  lemma AllRewritten(g: Geometry, es0: seq<RawEntry>, es: seq<RawEntry>, dir: seq<nat>, k: nat, n: nat, c: Change)
    requires g.Valid() && SetHere(g, es0, dir, k, n) && |es0| == Capacity(g, dir) && k + 2 <= |es0| && 2 <= n
    requires IsFile(es0[k])
    requires Rewriting(es0, es, k, n, NewFileEntry(es0[k], c), NewStreamEntry(es0[k + 1], c))
    ensures k + n <= |es| && WellFormed(es0) && k in Listing(es0)
    ensures var sum := Checksum(Flat(es[k..k + n]));
            && SetPut(es0, es[k := WithChecksum(NewFileEntry(es0[k], c), sum)], k, n, Changed(Listing(es0)[k], c, sum))
            && SaysNow(es0, es[k := WithChecksum(NewFileEntry(es0[k], c), sum)], k, c)
  {
    hide ParseFile, ParseStream, NewFileEntry, NewStreamEntry, Checksum, Flat, WithChecksum, Changed, InOneCluster,
         Capacity, SetPut, NameOf, SaysNow;
    var sum := Checksum(Flat(es[k..k + n]));
    NewEntriesParse(es0[k], es0[k + 1], c, sum, NameOf(es0, k));
    SetRewritten(es0, k, NewFileEntry(es0[k], c), NewStreamEntry(es0[k + 1], c), n);
    assert ParseSet(es0, k) == FileSet(ParseFile(es0[k]), ParseStream(es0[k + 1]), NameOf(es0, k));
    assert es == es0[k := NewFileEntry(es0[k], c)][k + 1 := NewStreamEntry(es0[k + 1], c)];
    assert Sealed(es, k, n) == es[k := WithChecksum(NewFileEntry(es0[k], c), sum)];
    EntriesSay(es0, es[k := WithChecksum(NewFileEntry(es0[k], c), sum)], k, c, sum);
  }

  lemma EntriesSay(es: seq<RawEntry>, es': seq<RawEntry>, k: nat, c: Change, sum: u16)
    requires k + 1 < |es| && |es'| == |es| && IsFile(es[k])
    requires es'[k] == WithChecksum(NewFileEntry(es[k], c), sum) && es'[k + 1] == NewStreamEntry(es[k + 1], c)
    ensures SaysNow(es, es', k, c)
  {
    hide NewFileEntry, NewStreamEntry, WithChecksum, Restamped, Unstamped, Repointed;
    RepointedBytes(es[k + 1], c);
    if c.time.Some? {
      StampedBytes(es[k], c, sum);
    } else {
      UnstampedBytes(es[k], c, sum);
    }
  }

  lemma RewritingNone(es: seq<RawEntry>, k: nat, file: RawEntry, stream: RawEntry)
    requires k + 2 <= |es|
    ensures Rewriting(es, es, k, 0, file, stream)
  {
  }

  lemma FileKept(e: RawEntry, c: Change)
    requires IsFile(e) && c.time.None?
    ensures NewFileEntry(e, c) == e
  {
  }

  /** Reader and writer have both gone through `i` entries of the set of `n` at `k`. */
  ghost predicate Midway(vol: Volume, touched: FileDirty, writer: DirSetWriter, chain: DirectoryEntryChain,
                         dir: seq<nat>, k: nat, n: nat, es0: seq<RawEntry>, i: nat, file: RawEntry, stream: RawEntry)
    reads vol, vol.Footprint(), touched, writer, chain, chain.vol, chain.vol.Footprint()
  {
    && chain.vol == vol && chain.dir == dir && chain.numEntries == Some(n) && chain.first == k && chain.Valid()
    && writer.g == vol.g && writer.dir == dir && writer.first == k && writer.Valid()
    && Writable(vol, touched, dir)
    && k + 2 <= |es0| && k + n <= |es0| && |es0| == Capacity(vol.g, dir) && InOneCluster(vol.g, dir, k, n)
    && i <= n && chain.at == k + i && chain.cursor == i
    && Rewriting(es0, EntriesOf(vol, dir), k, i, file, stream)
    && writer.entries == EntriesOf(vol, dir)[k..k + i]
  }

  /** A writer and a reader for the set of `n` entries at `k`. */
  method Begin(vol: Volume, touched: FileDirty, loc: Location, secondaryCount: nat, ghost dir: seq<nat>, ghost k: nat,
               ghost file: RawEntry, ghost stream: RawEntry)
    returns (writer: DirSetWriter, chain: DirectoryEntryChain)
    requires Writable(vol, touched, dir) && IsDirectory(vol.View().fat, vol.g, dir)
    requires secondaryCount > 0 && InOneCluster(vol.g, dir, k, secondaryCount + 1)
    requires k < Capacity(vol.g, dir) && loc == PlaceOf(vol.g, dir, k)
    ensures fresh(writer) && fresh(chain)
    ensures k + 2 <= Capacity(vol.g, dir)
    ensures Midway(vol, touched, writer, chain, dir, k, secondaryCount + 1, EntriesOf(vol, dir), 0, file, stream)
  {
    hide Volume.Coherent, Volume.View, Geometry.Valid, FileDirty.Valid, Entries, PlaceOf, Good, Capacity, AllStore,
         Distinct, IsDirectory, DirSetWriter.Valid, DirectoryEntryChain.Valid, ClusterNo, Rewriting;
    ghost var footprint := vol.Footprint();
    writer := new DirSetWriter(vol.g, loc, dir, k);
    chain := new DirectoryEntryChain.FromFileDetails(vol, loc, secondaryCount, dir, k);
    RewritingNone(EntriesOf(vol, dir), k, file, stream);
  }

  lemma Within(g: Geometry, dir: seq<nat>, k: nat, n: nat, i: nat)
    requires g.Valid() && InOneCluster(g, dir, k, n) && i <= n
    ensures InOneCluster(g, dir, k, i)
  {
    hide ClusterNo, Capacity;
  }

  /** One round of the rewriting loops; `r` is the entry as it now stands, or nothing at the end. */
  method NextEntry(vol: Volume, touched: FileDirty, writer: DirSetWriter, chain: DirectoryEntryChain, c: Change, i: nat,
                   ghost dir: seq<nat>, ghost k: nat, ghost n: nat, ghost es0: seq<RawEntry>)
    returns (r: Option<RawEntry>)
    requires k + 1 < |es0| && IsFile(es0[k])
    requires Midway(vol, touched, writer, chain, dir, k, n, es0, i, NewFileEntry(es0[k], c), NewStreamEntry(es0[k + 1], c))
    modifies chain, writer, vol.Footprint(), touched
    ensures i <= n && (r.None? <==> i == n)
    ensures Writable(vol, touched, dir)
    ensures r.None? ==>
              && writer.Valid() && writer.g == vol.g && writer.dir == dir && writer.first == k
              && k + n <= Capacity(vol.g, dir) && writer.entries == EntriesOf(vol, dir)[k..k + n]
              && Rewriting(es0, EntriesOf(vol, dir), k, n, NewFileEntry(es0[k], c), NewStreamEntry(es0[k + 1], c))
    ensures r.Some? ==>
              Midway(vol, touched, writer, chain, dir, k, n, es0, i + 1, NewFileEntry(es0[k], c),
                  NewStreamEntry(es0[k + 1], c))
    ensures r.Some? && i == 0 ==> r.value == NewFileEntry(es0[k], c)
    ensures touched.isDirEntryDirty == old(touched.isDirEntryDirty)
    ensures OnlyData(old(vol.View()), vol.View(), dir)
    ensures old(touched.inserted) <= touched.inserted
    ensures vol.Unsaved() <= old(vol.Unsaved()) + touched.inserted
  {
    hide Volume.Coherent, Volume.Unsaved, Volume.View, Geometry.Valid, FileDirty.Valid, Entries, PlaceOf, Good,
         Capacity, AllStore, Distinct, OnlyData, IsDirectory, DirSetWriter.Valid, DirectoryEntryChain.Valid,
         ClusterNo, SetHere, WellFormed, NewFileEntry, NewStreamEntry, Rewriting, SetPut, Checksum, Flat,
         WithChecksum, Changed, InOneCluster;
    ghost var v0, es1 := vol.View(), EntriesOf(vol, dir);
    ghost var file', stream' := NewFileEntry(es0[k], c), NewStreamEntry(es0[k + 1], c);
    OnlyDataNone(v0, dir);
    var e := chain.Next();
    if e.None? {
      return None;
    }
    Within(vol.g, dir, k, n, i + 1);
    NotYetRewritten(es0, es1, k, i, file', stream');
    var raw: RawEntry := if i == 0 then NewFileEntry(e.value.0, c) else if i == 1 then NewStreamEntry(e.value.0, c)
        else e.value.0;
    if i == 0 && c.time.None? { FileKept(e.value.0, c); }
    RewritingStep(es0, es1, k, i, file', stream', raw);
    Step(vol, touched, writer, chain, raw, i == 1 || (i == 0 && c.time.Some?), i);
    r := Some(raw);
  }

  /** The rewriting loop; returns the first entry of the set as it now stands. */
  method ChangeEntries(vol: Volume, touched: FileDirty, writer: DirSetWriter, chain: DirectoryEntryChain, c: Change,
                       ghost dir: seq<nat>, ghost k: nat, ghost n: nat, ghost es0: seq<RawEntry>)
    returns (fileDir: Option<RawEntry>)
    requires k + 1 < |es0| && IsFile(es0[k]) && n > 0 && Writable(vol, touched, dir)
    requires Midway(vol, touched, writer, chain, dir, k, n, es0, 0, NewFileEntry(es0[k], c), NewStreamEntry(es0[k + 1], c))
    modifies chain, writer, vol.Footprint(), touched
    ensures Writable(vol, touched, dir) && fileDir == Some(NewFileEntry(es0[k], c))
    ensures writer.Valid() && writer.g == vol.g && writer.dir == dir && writer.first == k
    ensures k + n <= Capacity(vol.g, dir) && writer.entries == EntriesOf(vol, dir)[k..k + n]
    ensures Rewriting(es0, EntriesOf(vol, dir), k, n, NewFileEntry(es0[k], c), NewStreamEntry(es0[k + 1], c))
    ensures touched.isDirEntryDirty == old(touched.isDirEntryDirty)
    ensures OnlyData(old(vol.View()), vol.View(), dir)
    ensures old(touched.inserted) <= touched.inserted
    ensures vol.Unsaved() <= old(vol.Unsaved()) + touched.inserted
  {
    hide Volume.Coherent, Volume.Unsaved, Volume.View, Geometry.Valid, FileDirty.Valid, Entries, PlaceOf, Good,
         Capacity, AllStore, Distinct, OnlyData, IsDirectory, DirSetWriter.Valid, DirectoryEntryChain.Valid,
         ClusterNo, SetHere, WellFormed, NewFileEntry, NewStreamEntry, Rewriting, SetPut, Checksum, Flat,
         WithChecksum, Changed, InOneCluster, Midway;
    ghost var v0 := vol.View();
    OnlyDataNone(v0, dir);
    fileDir := None;
    var counter := 0;
    while true
      invariant counter <= n && Writable(vol, touched, dir)
      invariant Midway(vol, touched, writer, chain, dir, k, n, es0, counter, NewFileEntry(es0[k], c),
                NewStreamEntry(es0[k + 1], c))
      invariant touched.isDirEntryDirty == old(touched.isDirEntryDirty)
      invariant counter > 0 ==> fileDir == Some(NewFileEntry(es0[k], c))
      invariant OnlyData(v0, vol.View(), dir)
      invariant old(touched.inserted) <= touched.inserted
      invariant vol.Unsaved() <= old(vol.Unsaved()) + touched.inserted
      decreases n - counter
    {
      ghost var v1 := vol.View();
      var entry := NextEntry(vol, touched, writer, chain, c, counter, dir, k, n, es0);
      OnlyDataTrans(v0, v1, vol.View(), dir);
      if entry.None? {
        break;
      }
      if counter == 0 {
        fileDir := entry;
      }
      counter := counter + 1;
    }
  }

  /** The entry set part of `File::flush` and of `truncate_file`: the set at `k` is changed as asked
      and given a checksum that is right for the bytes stored, although the reader works from a copy
      of each sector made before its entries were rewritten. No other set changes. */
  method ChangeSet(vol: Volume, touched: FileDirty, loc: Location, secondaryCount: nat, c: Change, ghost dir: seq<nat>,
                   ghost k: nat)
    returns (ghost sum: u16)
    requires Writable(vol, touched, dir) && IsDirectory(vol.View().fat, vol.g, dir)
    requires SetHere(vol.g, EntriesOf(vol, dir), dir, k, secondaryCount + 1)
    requires k < Capacity(vol.g, dir) && loc == PlaceOf(vol.g, dir, k)
    modifies vol.Footprint(), touched
    ensures Writable(vol, touched, dir) && touched.isDirEntryDirty == old(touched.isDirEntryDirty)
    ensures WellFormed(old(EntriesOf(vol, dir))) && k in Listing(old(EntriesOf(vol, dir)))
    ensures SetPut(old(EntriesOf(vol, dir)), EntriesOf(vol, dir), k, secondaryCount + 1,
            Changed(Listing(old(EntriesOf(vol, dir)))[k], c, sum))
    ensures SaysNow(old(EntriesOf(vol, dir)), EntriesOf(vol, dir), k, c)
    ensures OnlyData(old(vol.View()), vol.View(), dir)
    ensures old(touched.inserted) <= touched.inserted
    ensures vol.Unsaved() <= old(vol.Unsaved()) + touched.inserted
  {
    hide Volume.Coherent, Volume.Unsaved, Volume.View, Geometry.Valid, FileDirty.Valid, Entries, PlaceOf, Good,
         Capacity, AllStore, Distinct, OnlyData, IsDirectory, DirSetWriter.Valid, DirectoryEntryChain.Valid,
         ClusterNo, SetHere, WellFormed, NewFileEntry, NewStreamEntry, Rewriting, SetPut, Checksum, Flat,
         WithChecksum, Changed, InOneCluster, Midway, EntriesOf, SaysNow, IsFile, IsStream;
    ghost var v0, es0, n := vol.View(), EntriesOf(vol, dir), secondaryCount + 1;
    HereFacts(vol.g, es0, dir, k, n);
    var writer, chain := Begin(vol, touched, loc, secondaryCount, dir, k, NewFileEntry(es0[k], c),
        NewStreamEntry(es0[k + 1], c));
    var fileDir := ChangeEntries(vol, touched, writer, chain, c, dir, k, n, es0);
    ghost var v1, es1 := vol.View(), EntriesOf(vol, dir);
    AllRewritten(vol.g, es0, es1, dir, k, n, c);
    sum := Checksum(Flat(es1[k..k + n]));
    if fileDir.Some? {
      writer.Finish(vol, touched, fileDir.value);
      assert EntriesOf(vol, dir) == es1[k := WithChecksum(NewFileEntry(es0[k], c), sum)];
      OnlyDataTrans(v0, v1, vol.View(), dir);
    }
  }

  // ---- removing a set ---------------------------------------------------------------------------

  lemma TombstonedNext(es: seq<RawEntry>, k: nat, i: nat)
    requires k + i + 1 <= |es|
    ensures Tombstoned(es, k, i)[k + i] == es[k + i]
    ensures Tombstoned(es, k, i)[k + i := Tombstone(es[k + i])] == Tombstoned(es, k, i + 1)
  {
    hide Tombstone;
  }

  lemma TombstoneByte(e: RawEntry)
    ensures Splice(e, 0, [(e[0] % 128) as byte]) == Tombstone(e)
  {
  }

  lemma TombstonedNone(es: seq<RawEntry>, k: nat)
    requires k <= |es|
    ensures Tombstoned(es, k, 0) == es
  {
  }

  /** The offset of the entry to visit next, before the test for the end of the sector. */
  ghost predicate Passing(g: Geometry, dir: seq<nat>, k: nat, i: nat, sector: nat, offset: nat)
    requires g.Valid() && AllStore(g, dir) && k + i <= Capacity(g, dir) && k < Capacity(g, dir)
  {
    if i == 0 then PlaceOf(g, dir, k) == Location(sector, offset)
    else offset > 0 && PlaceOf(g, dir, k + i - 1) == Location(sector, offset - 1)
  }

  lemma PassingOn(g: Geometry, dir: seq<nat>, k: nat, i: nat, n: nat, sector: nat, offset: nat)
    requires g.Valid() && AllStore(g, dir) && InOneCluster(g, dir, k, n) && i < n
    requires Passing(g, dir, k, i, sector, offset)
    ensures PlaceOf(g, dir, k + i) == if offset == PerSector(g) then Location(sector + 1, 0) else Location(sector, offset)
  {
    hide ClusterNo, Capacity, PerSector, PerCluster, AllStore, Geometry.Valid;
    if i > 0 {
      NextPlace(g, dir, k + i - 1);
    } else {
      OffsetInSector(g, dir, k);
    }
  }

  lemma OffsetInSector(g: Geometry, dir: seq<nat>, k: nat)
    requires g.Valid() && AllStore(g, dir) && k < Capacity(g, dir)
    ensures PlaceOf(g, dir, k).offset < PerSector(g)
  {
    hide ClusterNo, Capacity, PerSector, PerCluster, Geometry.Valid;
  }

  /** The type byte of one entry of the set loses its in-use bit. */
  method MarkEntry(vol: Volume, touched: FileDirty, loc: Location, ghost dir: seq<nat>, ghost k: nat)
    requires Writable(vol, touched, dir) && k < Capacity(vol.g, dir) && loc == PlaceOf(vol.g, dir, k)
    modifies vol.Footprint(), touched
    ensures Writable(vol, touched, dir) && touched.isDirEntryDirty == old(touched.isDirEntryDirty)
    ensures EntriesOf(vol, dir) == old(EntriesOf(vol, dir))[k := Tombstone(old(EntriesOf(vol, dir))[k])]
    ensures OnlyData(old(vol.View()), vol.View(), dir)
    ensures old(touched.inserted) <= touched.inserted
    ensures vol.Unsaved() <= old(vol.Unsaved()) + touched.inserted
  {
    hide Volume.Coherent, Volume.Unsaved, Volume.View, Geometry.Valid, FileDirty.Valid, Entries, PlaceOf, Good,
         Capacity, AllStore, Distinct, OnlyData, ClusterNo, PerSector, Tombstone;
    EntryRead(vol.flat, vol.g, dir, k);
    EntryPatched(vol.flat, vol.g, dir, k, 0, []);
    var block := vol.Read(Kind.Data, loc.sector);
    ghost var e := EntriesOf(vol, dir)[k];
    TombstoneByte(e);
    PutBytes(vol, touched, loc, 0, [block[32 * loc.offset] % 128], dir, k);
  }

  /** Goes from entry to entry, moving on to the next sector at the end of one. */
  method MarkEntries(vol: Volume, touched: FileDirty, location: Location, n: nat, ghost dir: seq<nat>, ghost k: nat)
    requires Writable(vol, touched, dir) && InOneCluster(vol.g, dir, k, n)
    requires k < Capacity(vol.g, dir) && location == PlaceOf(vol.g, dir, k)
    modifies vol.Footprint(), touched
    ensures Writable(vol, touched, dir) && touched.isDirEntryDirty == old(touched.isDirEntryDirty)
    ensures k + n <= Capacity(vol.g, dir) && EntriesOf(vol, dir) == Tombstoned(old(EntriesOf(vol, dir)), k, n)
    ensures OnlyData(old(vol.View()), vol.View(), dir)
    ensures old(touched.inserted) <= touched.inserted
    ensures vol.Unsaved() <= old(vol.Unsaved()) + touched.inserted
  {
    hide Volume.Coherent, Volume.Unsaved, Volume.View, Geometry.Valid, FileDirty.Valid, Entries, PlaceOf, Good,
         Capacity, AllStore, Distinct, OnlyData, ClusterNo, PerSector, Tombstone, Tombstoned, Passing;
    ghost var v0, es0 := vol.View(), EntriesOf(vol, dir);
    OnlyDataNone(v0, dir);
    TombstonedNone(es0, k);
    var sector, offset := location.sector, location.offset;
    PassingStart(vol.g, dir, k, sector, offset);
    for i := 0 to n
      invariant Writable(vol, touched, dir) && touched.isDirEntryDirty == old(touched.isDirEntryDirty)
      invariant EntriesOf(vol, dir) == Tombstoned(es0, k, i)
      invariant Passing(vol.g, dir, k, i, sector, offset)
      invariant OnlyData(v0, vol.View(), dir)
      invariant old(touched.inserted) <= touched.inserted
      invariant vol.Unsaved() <= old(vol.Unsaved()) + touched.inserted
    {
      ghost var v1 := vol.View();
      PassingOn(vol.g, dir, k, i, n, sector, offset);
      TombstonedNext(es0, k, i);
      if offset == PerSector(vol.g) {
        sector := sector + 1;
        offset := 0;
      }
      MarkEntry(vol, touched, Location(sector, offset), dir, k + i);
      OnlyDataTrans(v0, v1, vol.View(), dir);
      offset := offset + 1;
      PassingNow(vol.g, dir, k, i + 1, sector, offset);
    }
  }

  /** `mark_directory_entry_set_unused`: exactly the file at `k` disappears from the listing. */
  method MarkSetUnused(vol: Volume, touched: FileDirty, location: Location, n: nat, ghost dir: seq<nat>, ghost k: nat)
    requires Writable(vol, touched, dir) && SetHere(vol.g, EntriesOf(vol, dir), dir, k, n)
    requires k < Capacity(vol.g, dir) && location == PlaceOf(vol.g, dir, k)
    modifies vol.Footprint(), touched
    ensures Writable(vol, touched, dir) && touched.isDirEntryDirty == old(touched.isDirEntryDirty)
    ensures WellFormed(old(EntriesOf(vol, dir))) && WellFormed(EntriesOf(vol, dir))
    ensures k in Listing(old(EntriesOf(vol, dir)))
    ensures Listing(EntriesOf(vol, dir)) == Listing(old(EntriesOf(vol, dir))) - {k}
    ensures ChangedWithin(old(EntriesOf(vol, dir)), EntriesOf(vol, dir), k, n)
    ensures forall i :: k <= i < k + n ==> !InUse(EntriesOf(vol, dir)[i])
    ensures Retired(old(EntriesOf(vol, dir)), EntriesOf(vol, dir), k, n)
    ensures OnlyData(old(vol.View()), vol.View(), dir)
    ensures old(touched.inserted) <= touched.inserted
    ensures vol.Unsaved() <= old(vol.Unsaved()) + touched.inserted
  {
    hide Volume.Coherent, Volume.Unsaved, Volume.View, Geometry.Valid, FileDirty.Valid, Entries, PlaceOf, Good,
         Capacity, AllStore, Distinct, OnlyData, ClusterNo, PerSector, Tombstone, SetHere, WellFormed, Tombstoned,
         Listing, ChangedWithin, InOneCluster, Retired;
    ghost var es0 := EntriesOf(vol, dir);
    HereSet(vol.g, es0, dir, k, n);
    TombstonedBytes(es0, k, n);
    RemoveSet(es0, k);
    TombstonedWithin(es0, k, n);
    MarkEntries(vol, touched, location, n, dir, k);
  }

  /** The entries lose the highest bit of their first byte, and nothing else. */
  ghost predicate Retired(es: seq<RawEntry>, es': seq<RawEntry>, k: nat, n: nat) {
    && k + n <= |es| && |es'| == |es|
    && forall i :: k <= i < k + n ==> es'[i][0] as int == es[i][0] as int - 128 && es'[i][1..] == es[i][1..]
  }

  lemma TombstonedBytes(es: seq<RawEntry>, k: nat, n: nat)
    requires SetAt(es, k) && n == SetSize(es, k) && k + n <= |es|
    ensures Retired(es, Tombstoned(es, k, n), k, n)
  {
    hide SetAt, SetSize;
    forall i | k <= i < k + n
      ensures Tombstoned(es, k, n)[i][0] as int == es[i][0] as int - 128 && Tombstoned(es, k, n)[i][1..] == es[i][1..]
    {
      SetInUse(es, k, i);
    }
  }

  lemma HereSet(g: Geometry, es: seq<RawEntry>, dir: seq<nat>, k: nat, n: nat)
    requires g.Valid() && SetHere(g, es, dir, k, n)
    ensures WellFormed(es) && SetAt(es, k) && n == SetSize(es, k) && 0 < n && k + n <= |es|
    ensures InOneCluster(g, dir, k, n)
  {
  }

  lemma PassingStart(g: Geometry, dir: seq<nat>, k: nat, sector: nat, offset: nat)
    requires g.Valid() && AllStore(g, dir) && k < Capacity(g, dir) && PlaceOf(g, dir, k) == Location(sector, offset)
    ensures Passing(g, dir, k, 0, sector, offset)
  {
  }

  lemma PassingNow(g: Geometry, dir: seq<nat>, k: nat, i: nat, sector: nat, offset: nat)
    requires g.Valid() && AllStore(g, dir) && 0 < i && k + i <= Capacity(g, dir)
    requires offset > 0 && PlaceOf(g, dir, k + i - 1) == Location(sector, offset - 1)
    ensures Passing(g, dir, k, i, sector, offset)
  {
  }

  lemma TombstonedWithin(es: seq<RawEntry>, k: nat, n: nat)
    requires k + n <= |es| && n > 0
    ensures ChangedWithin(es, Tombstoned(es, k, n), k, n)
    ensures forall i :: k <= i < k + n ==> !InUse(Tombstoned(es, k, n)[i])
  {
  }
}
