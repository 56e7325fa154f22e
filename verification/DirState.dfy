/** What a directory says of the files on the volume: every file's entry set records it, under its
    up-cased name. */
module DirState {
  import opened Allocator
  import opened Bytes
  import opened Chains
  import opened DirEntry
  import opened Directory
  import opened DirPlace
  import opened DirReader
  import opened DirUpdate
  import opened DirWriter
  import opened Disk
  import opened EntrySet
  import opened File
  import opened FileData
  import opened FsState
  import opened Names
  import opened Results

  /** What an entry set records of a file. */
  function DetailsOfSet(g: Geometry, dir: seq<nat>, k: nat, f: FileSet): FileDetails
    requires g.Valid() && AllStore(g, dir) && k < Capacity(g, dir)
  {
    FileDetails(f.stream.firstCluster, f.stream.dataLength, f.stream.validDataLength, NoFatChain(f.stream.flags),
        f.stream.flags % 2 == 1,
                PlaceOf(g, dir, k), f.file.secondaryCount)
  }

  /** Set `k` is that of the file known as `id`. */
  ghost predicate Lists(table: UpcaseMap, m: map<nat, FileSet>, k: nat, id: Name) {
    k in m && ContainsAll(m[k].file.attributes, ARCHIVE) && Upcased(table, m[k].name) == id
  }

  /** The sets `m` are exactly those of the files of `records`, each once and each as recorded; all
      stored hashes are right, and no set crosses a cluster boundary. */
  ghost predicate ListsAll(g: Geometry, table: UpcaseMap, dir: seq<nat>, m: map<nat, FileSet>,
                           records: map<Name, FileDetails>)
    requires g.Valid() && AllStore(g, dir)
  {
    && (forall k :: k in m ==> k < Capacity(g, dir) && SetInOrder(g, table, dir, k, m[k]))
    && (forall k, id :: Lists(table, m, k, id) ==> id in records && records[id] == DetailsOfSet(g, dir, k, m[k]))
    && (forall id :: id in records ==> exists k :: Lists(table, m, k, id))
    && (forall j, k, id :: Lists(table, m, j, id) && Lists(table, m, k, id) ==> j == k)
  }

  ghost predicate SetInOrder(g: Geometry, table: UpcaseMap, dir: seq<nat>, k: nat, f: FileSet)
    requires g.Valid()
  {
    && f.stream.nameHash == HashOf(Upcased(table, f.name)) && InOneCluster(g, dir, k, f.file.secondaryCount + 1)
    && !(ContainsAll(f.file.attributes, ARCHIVE) && ContainsAll(f.file.attributes, DIRECTORY))
  }

  /** The directory on the disk is in order and lists the files of the state. */
  ghost predicate Recorded(d: seq<Block>, g: Geometry, table: UpcaseMap, dir: seq<nat>, fs: Fs) {
    && g.Valid() && Good(d, g) && IsDirectory(Abs(d, g).fat, g, dir)
    && (forall c :: c in dir ==> c in fs.system)
    && WellFormed(Entries(d, g, dir))
    && ListsAll(g, table, dir, Listing(Entries(d, g, dir)), fs.records)
  }

  /** Where the entry set of a file starts. */
  ghost function IndexOf(d: seq<Block>, g: Geometry, table: UpcaseMap, dir: seq<nat>, fs: Fs, id: Name): (k: nat)
    requires Recorded(d, g, table, dir, fs) && id in fs.records
    ensures Lists(table, Listing(Entries(d, g, dir)), k, id)
  {
    var k :| Lists(table, Listing(Entries(d, g, dir)), k, id);
    k
  }

  /** Changes outside the system's clusters do not reach the directory. */
  lemma DirectoryKept(d: seq<Block>, d': seq<Block>, g: Geometry, table: UpcaseMap, dir: seq<nat>, fs: Fs, fs': Fs)
    requires Recorded(d, g, table, dir, fs) && Good(d', g) && SystemKept(Abs(d, g), Abs(d', g), fs.system)
    requires fs'.system == fs.system && fs'.records == fs.records
    ensures Recorded(d', g, table, dir, fs') && Entries(d', g, dir) == Entries(d, g, dir)
  {
    hide Abs, ListsAll, Geometry.Valid;
    DirectoryStores(Abs(d, g).fat, g, dir);
    StoresBacked(d, g, dir);
    LengthPositive(g);
    assert forall c :: c in dir ==> Abs(d', g).data[c] == Abs(d, g).data[c] by { DirInData(d, g, dir); }
    RawFrame(Abs(d, g).data, Abs(d', g).data, dir, g.ClusterLength());
    DirectoryLinksKept(Abs(d, g).fat, Abs(d', g).fat, g, dir);
  }

  lemma DirInData(d: seq<Block>, g: Geometry, dir: seq<nat>)
    requires g.Valid() && Good(d, g) && AllStore(g, dir)
    ensures forall c :: c in dir ==> c < |Abs(d, g).data|
  {
  }

  lemma DirectoryLinksKept(fat: seq<nat>, fat': seq<nat>, g: Geometry, dir: seq<nat>)
    requires g.Valid() && IsDirectory(fat, g, dir) && |fat'| == |fat|
    requires forall c :: c in dir ==> (c < |fat| ==> fat'[c] == fat[c])
    ensures IsDirectory(fat', g, dir)
  {
  }

  // ---- what the changes of entry sets do to the records ----------------------------------------------

  /** A set was put at `k`, new or in place of the one there, for a file that no other set is for. */
  lemma PutListed(g: Geometry, table: UpcaseMap, dir: seq<nat>, m: map<nat, FileSet>, records: map<Name, FileDetails>,
                  k: nat, f: FileSet, id: Name)
    requires g.Valid() && AllStore(g, dir) && ListsAll(g, table, dir, m, records)
    requires k < Capacity(g, dir) && SetInOrder(g, table, dir, k, f)
    requires id == Upcased(table, f.name) && ContainsAll(f.file.attributes, ARCHIVE)
    requires if k in m then Lists(table, m, k, id) else id !in records
    ensures ListsAll(g, table, dir, m[k := f], records[id := DetailsOfSet(g, dir, k, f)])
  {
    hide DetailsOfSet, SetInOrder, ContainsAll, Upcased, AllStore, Capacity;
    var m' := m[k := f];
    assert Lists(table, m', k, id);
    forall j: nat, id' | j != k ensures Lists(table, m', j, id') <==> Lists(table, m, j, id') {
    }
    forall id' | id' in records && id' != id ensures exists j :: Lists(table, m', j, id') {
      var j :| Lists(table, m, j, id');
      assert Lists(table, m', j, id');
    }
  }

  /** The set of a file is gone. */
  lemma DropListed(g: Geometry, table: UpcaseMap, dir: seq<nat>, m: map<nat, FileSet>, records: map<Name, FileDetails>,
                   k: nat, id: Name)
    requires g.Valid() && AllStore(g, dir) && ListsAll(g, table, dir, m, records) && Lists(table, m, k, id)
    ensures ListsAll(g, table, dir, m - {k}, records - {id})
  {
    hide DetailsOfSet, SetInOrder, ContainsAll, Upcased, AllStore, Capacity;
    var m' := m - {k};
    forall j: nat, id' ensures Lists(table, m', j, id') <==> j != k && Lists(table, m, j, id') {
    }
    forall id' | id' in records && id' != id ensures exists j :: Lists(table, m', j, id') {
      var j :| Lists(table, m, j, id');
      assert Lists(table, m', j, id');
    }
  }

  /** A lookup by name finds the file exactly when it is recorded, and then what is recorded. */
  lemma LookedUp(g: Geometry, es: seq<RawEntry>, table: UpcaseMap, dir: seq<nat>, records: map<Name, FileDetails>,
                 name: seq<u16>, k: Option<nat>)
    requires g.Valid() && AllStore(g, dir) && WellFormed(es) && ListsAll(g, table, dir, Listing(es), records)
    requires FirstMatch(table, es, name, Some(ARCHIVE), k)
    ensures k.Some? <==> Upcased(table, name) in records
    ensures k.Some? ==> k.value < Capacity(g, dir) && Lists(table, Listing(es), k.value, Upcased(table, name))
                        && records[Upcased(table, name)] == DetailsOfSet(g, dir, k.value, Listing(es)[k.value])
  {
    hide DetailsOfSet, SetInOrder, ContainsAll, Upcased, AllStore, Capacity, WellFormed;
    if k.Some? {
      assert Lists(table, Listing(es), k.value, Upcased(table, name));
    }
  }

  /** No file has an empty name. */
  lemma NamesNotEmpty(d: seq<Block>, g: Geometry, table: UpcaseMap, dir: seq<nat>, fs: Fs)
    requires Recorded(d, g, table, dir, fs)
    ensures [] !in fs.records
  {
    hide Abs, IsDirectory, Entries, SetInOrder, DetailsOfSet, Capacity, ContainsAll;
    DirectoryStores(Abs(d, g).fat, g, dir);
    var es := Entries(d, g, dir);
    forall k | k in Listing(es) ensures Upcased(table, Listing(es)[k].name) != [] {
      SetNamed(es, k);
    }
  }

  lemma SetNamed(es: seq<RawEntry>, k: nat)
    requires WellFormed(es) && k in Listing(es)
    ensures Listing(es)[k].name != []
  {
  }

  lemma HashesListed(g: Geometry, es: seq<RawEntry>, table: UpcaseMap, dir: seq<nat>, records: map<Name, FileDetails>)
    requires g.Valid() && AllStore(g, dir) && WellFormed(es) && ListsAll(g, table, dir, Listing(es), records)
    ensures HashesRight(table, es)
  {
    hide WellFormed, Capacity, AllStore, InOneCluster, Upcased;
  }

  // ---- which entries are in use ---------------------------------------------------------------------

  ghost function Used(d: seq<Block>, g: Geometry, dir: seq<nat>): (u: seq<bool>)
    ensures g.Valid() && Good(d, g) && AllStore(g, dir) ==>
              |u| == Capacity(g, dir) && forall i :: 0 <= i < |u| ==> u[i] == InUse(Entries(d, g, dir)[i])
  {
    if g.Valid() && Good(d, g) && AllStore(g, dir)
    then seq(Capacity(g, dir), i requires 0 <= i < Capacity(g, dir) => InUse(Entries(d, g, dir)[i]))
    else []
  }

  /** `n` entries from `k` on come into use or go out of use. */
  function Mark(u: seq<bool>, k: nat, n: nat, on: bool): (r: seq<bool>)
    ensures |r| == |u| && forall i :: 0 <= i < |r| ==> r[i] == if k <= i < k + n then on else u[i]
  {
    seq(|u|, i requires 0 <= i < |u| => if k <= i < k + n then on else u[i])
  }

  lemma UsedMarked(d: seq<Block>, d': seq<Block>, g: Geometry, dir: seq<nat>, k: nat, n: nat, on: bool)
    requires g.Valid() && Good(d, g) && Good(d', g) && AllStore(g, dir)
    requires forall i :: 0 <= i < Capacity(g, dir) ==>
               (InUse(Entries(d', g, dir)[i]) <==> if k <= i < k + n then on else InUse(Entries(d, g, dir)[i]))
    ensures Used(d', g, dir) == Mark(Used(d, g, dir), k, n, on)
  {
    hide Entries, InUse, Capacity;
  }

  lemma MarkNothing(u: seq<bool>)
    ensures Mark(u, 0, 0, false) == u
  {
  }
}
