/** A model of the file system in which a file is just its bytes: a directory is a map from up-cased
    names to files, and files have nothing in common. */
module RunModel {
  import opened Bytes
  import opened Contents
  import opened Conservation
  import opened Directory
  import opened DirEntry
  import opened DirPlace
  import opened DirState
  import opened Disk
  import opened File
  import opened FileData
  import opened Names
  import opened Results

  datatype OpenOptions = OpenOptions(read: bool, write: bool, append: bool, truncate: bool, create: bool, createNew: bool)

  datatype Mode = Mode(at: nat, canRead: bool, canWrite: bool)

  /** A file: its bytes, how many of them are valid, the cursor if it is open, and its entry set. */
  datatype AFile = AFile(bytes: seq<byte>, valid: nat, mode: Option<Mode>, location: Location, secondaryCount: nat)

  /** The files of the directory, and which of its entries are in use. */
  datatype AState = AState(files: map<Name, AFile>, used: seq<bool>)

  datatype Op =
    | Open(name: seq<u16>, options: OpenOptions, t: Stamp)
    | Write(id: Name, x: seq<byte>)
    | Read(id: Name, n: nat)
    | Seek(id: Name, pos: nat)
    | Flush(id: Name, t: Stamp)
    | Close(id: Name, t: Stamp)
    | Remove(name: seq<u16>)

  datatype Out = Done | Got(data: Option<seq<byte>>) | Failed(error: ExFatError)

  /** The volume as far as the model depends on it. */
  datatype World = World(g: Geometry, table: UpcaseMap, dir: seq<nat>)
  {
    ghost predicate Valid() { g.Valid() && AllStore(g, dir) }
  }

  function Max(a: nat, b: nat): nat { if a < b then b else a }

  predicate IsOpen(files: map<Name, AFile>, id: Name) { id in files && files[id].mode.Some? }

  predicate IsClosed(files: map<Name, AFile>, id: Name) { id in files && files[id].mode.None? }

  // ---- room in the directory -------------------------------------------------------------------

  ghost predicate FreeAt(used: seq<bool>, k: nat, n: nat) {
    k + n <= |used| && forall i :: k <= i < k + n ==> !used[i]
  }

  /** The first place from `k` on where `n` entries are free. */
  ghost function LeastFree(used: seq<bool>, n: nat, k: nat): (r: Option<nat>)
    ensures r.Some? ==> k <= r.value && FreeAt(used, r.value, n) && forall j :: k <= j < r.value ==> !FreeAt(used, j, n)
    ensures r.None? ==> forall j :: k <= j ==> !FreeAt(used, j, n)
    decreases |used| - k
  {
    if k + n > |used| then None
    else if FreeAt(used, k, n) then Some(k)
    else if k < |used| then LeastFree(used, n, k + 1)
    else None
  }

  /** A new set of `n` entries can go where the search will put it: if nothing fits, the last entry is
      taken; otherwise the first fit does not cross a cluster boundary. */
  ghost predicate RoomIn(g: Geometry, used: seq<bool>, n: nat)
    requires g.Valid()
  {
    match LeastFree(used, n, 0)
    case None => used == [] || used[|used| - 1]
    case Some(k) => forall i :: k <= i < k + n ==> ClusterNo(g, i) == ClusterNo(g, k)
  }

  // ---- what the caller must see to -----------------------------------------------------------------

  /** A file that is opened for appending has its valid length in its last cluster. */
  ghost predicate AppendsWell(g: Geometry, f: AFile)
    requires g.Valid()
  {
    LengthPositive(g);
    f.bytes == [] || f.valid / g.ClusterLength() == ClustersFor(|f.bytes|, g) - 1
  }

  predicate Creates(o: OpenOptions) { o.create || o.createNew }

  ghost predicate OpenAllowed(w: World, s: AState, name: seq<u16>, o: OpenOptions)
    requires w.Valid()
  {
    var id := Upcased(w.table, name);
    IsLegal(name) ==>
      if id in s.files
      then o.createNew || (s.files[id].mode.None? && (o.append && !o.truncate ==> AppendsWell(w.g, s.files[id])))
      else Creates(o) ==> |name| <= 255 && RoomIn(w.g, s.used, SetLength(|name|))
  }

  /** One handle to a file at a time, writes that start within the valid bytes and have no bad tail,
      seeks that do not go to the very end of full clusters, and what opening needs. */
  ghost predicate Allowed(w: World, s: AState, op: Op)
    requires w.Valid()
  {
    match op
    case Open(name, o, _) => OpenAllowed(w, s, name, o)
    case Write(id, x) =>
      IsOpen(s.files, id) && s.files[id].mode.value.at <= s.files[id].valid && !BadTail(w.g, s.files[id].mode.value.at, |x|)
    case Read(id, _) => IsOpen(s.files, id)
    case Seek(id, pos) => SeekAllowed(w.g, s.files, id, pos)
    case Flush(id, _) => IsOpen(s.files, id)
    case Close(id, _) => IsOpen(s.files, id)
    case Remove(name) => IsLegal(name) && Upcased(w.table, name) in s.files ==> IsClosed(s.files, Upcased(w.table, name))
  }

  ghost predicate SeekAllowed(g: Geometry, files: map<Name, AFile>, id: Name, pos: nat)
    requires g.Valid()
  {
    IsOpen(files, id) &&
    (pos > files[id].valid || files[id].bytes == [] || pos < ClustersFor(|files[id].bytes|, g) * g.ClusterLength())
  }

  // ---- what the operations do ------------------------------------------------------------------------

  /** An operation on an open file. */
  function Next(f: AFile, op: Op): (AFile, Out)
    requires f.mode.Some? && !op.Open? && !op.Remove?
    requires op.Write? ==> f.mode.value.at <= |f.bytes|
  {
    var m := f.mode.value;
    match op
    case Write(_, x) =>
      if x == [] then (f, Done)
      else if !m.canWrite then (f, Failed(WriteNotEnabled))
      else (f.(bytes := WriteAt(f.bytes, m.at, x), valid := Max(m.at + |x|, f.valid),
          mode := Some(m.(at := m.at + |x|))), Done)
    case Read(_, n) =>
      if !m.canRead then (f, Failed(ReadNotEnabled))
      else if m.at >= |f.bytes| then (f, Got(None))
      else
        var end := Min(m.at + n, |f.bytes|);
        (f.(mode := Some(m.(at := end))), Got(Some(f.bytes[m.at..end])))
    case Seek(_, pos) =>
      if pos > f.valid then (f, Failed(SeekOutOfRange))
      else (f.(mode := Some(m.(at := pos))), Done)
    case Flush(_, _) => (f, Done)
    case Close(_, _) => (f.(mode := None), Done)
  }

  function OpenedAs(f: AFile, o: OpenOptions): AFile {
    f.(mode := Some(Mode(if o.append then f.valid else 0, o.read, o.write)))
  }

  function Truncated(f: AFile): AFile { f.(bytes := [], valid := 0) }

  ghost predicate Sane(s: AState) {
    forall id :: id in s.files ==> s.files[id].valid <= |s.files[id].bytes|
  }

  /** A new file, not yet open, in the entries from `k` on. */
  ghost function WithNew(w: World, s: AState, name: seq<u16>, k: nat): AState
    requires w.Valid() && k < Capacity(w.g, w.dir)
  {
    AState(s.files[Upcased(w.table, name) := AFile([], 0, None, PlaceOf(w.g, w.dir, k), SetLength(|name|) - 1)],
           Mark(s.used, k, SetLength(|name|), true))
  }

  ghost function WithFile(s: AState, id: Name, f: AFile): AState { s.(files := s.files[id := f]) }

  lemma WithFileTwice(s: AState, id: Name, f: AFile, f': AFile)
    ensures WithFile(WithFile(s, id, f), id, f') == WithFile(s, id, f')
  {
    assert s.files[id := f][id := f'] == s.files[id := f'];
  }

  ghost function Opening(w: World, s: AState, name: seq<u16>, o: OpenOptions): (AState, Out)
    requires w.Valid() && |s.used| == Capacity(w.g, w.dir)
  {
    var id := Upcased(w.table, name);
    if name == [] then (s, Failed(if Creates(o) then InvalidFileName else FileNotFound))
    else if !IsLegal(name) then (s, Failed(InvalidFileName))
    else if id in s.files then
      if o.createNew then (s, Failed(AlreadyExists))
      else (WithFile(s, id, OpenedAs(if o.truncate then Truncated(s.files[id]) else s.files[id], o)), Done)
    else if !Creates(o) then (s, Failed(FileNotFound))
    else
      match LeastFree(s.used, SetLength(|name|), 0)
      case None => (s, Failed(DirectoryFull))
      case Some(k) => var s' := WithNew(w, s, name, k); (WithFile(s', id, OpenedAs(s'.files[id], o)), Done)
  }

  ghost function Removing(w: World, s: AState, name: seq<u16>): (AState, Out)
    requires w.Valid()
  {
    var id := Upcased(w.table, name);
    if name == [] then (s, Failed(FileNotFound))
    else if !IsLegal(name) then (s, Failed(InvalidFileName))
    else if id !in s.files then (s, Failed(FileNotFound))
    else
      var f := s.files[id];
      (AState(s.files - {id}, Mark(s.used, IndexAt(w.g, w.dir, f.location), f.secondaryCount + 1, false)), Done)
  }

  ghost function Step(w: World, s: AState, op: Op): (r: (AState, Out))
    requires w.Valid() && |s.used| == Capacity(w.g, w.dir) && Sane(s) && Allowed(w, s, op)
    ensures Sane(r.0) && |r.0.used| == |s.used|
  {
    match op
    case Open(name, o, _) => Opening(w, s, name, o)
    case Remove(name) => Removing(w, s, name)
    case _ => var n := Next(s.files[op.id], op); (WithFile(s, op.id, n.0), n.1)
  }

  lemma RemoveGives(w: World, s: AState, name: seq<u16>)
    requires w.Valid() && |s.used| == Capacity(w.g, w.dir) && Sane(s) && Allowed(w, s, Remove(name))
    ensures var id, to := Upcased(w.table, name), Step(w, s, Remove(name));
            && (name == [] ==> to == (s, Failed(FileNotFound)))
            && (name != [] && !IsLegal(name) ==> to == (s, Failed(InvalidFileName)))
            && (name != [] && IsLegal(name) && id !in s.files ==> to == (s, Failed(FileNotFound)))
            && (name != [] && IsLegal(name) && id in s.files ==>
                  to == (AState(s.files - {id}, Mark(s.used, IndexAt(w.g, w.dir, s.files[id].location),
                                                     s.files[id].secondaryCount + 1, false)), Done))
  {
    hide IsLegal, Upcased, Mark, IndexAt, Capacity;
  }

  /** Opening, case by case: what it answers, the file it leaves and the handle it makes. */
  lemma OpenGives(w: World, s: AState, name: seq<u16>, o: OpenOptions, t: Stamp)
    requires w.Valid() && |s.used| == Capacity(w.g, w.dir) && Sane(s) && Allowed(w, s, Op.Open(name, o, t))
    ensures var id, n := Upcased(w.table, name), SetLength(|name|);
            var (s', out) := Step(w, s, Op.Open(name, o, t));
            && (name == [] ==>
                  s' == s && out == Failed(if o.create || o.createNew then InvalidFileName else FileNotFound))
            && (name != [] && !IsLegal(name) ==> s' == s && out == Failed(InvalidFileName))
            && (IsLegal(name) && id in s.files && o.createNew ==> s' == s && out == Failed(AlreadyExists))
            && (IsLegal(name) && id in s.files && !o.createNew ==>
                  && out == Done && s'.used == s.used && s'.files.Keys == s.files.Keys
                  && (forall j :: j in s.files && j != id ==> s'.files[j] == s.files[j])
                  && var f, f' := s.files[id], s'.files[id];
                  && f'.bytes == (if o.truncate then [] else f.bytes) && f'.valid == (if o.truncate then 0 else f.valid)
                  && f'.location == f.location && f'.secondaryCount == f.secondaryCount
                  && f'.mode == Some(Mode(if o.append then f'.valid else 0, o.read, o.write)))
            && (IsLegal(name) && id !in s.files && !o.create && !o.createNew ==> s' == s && out == Failed(FileNotFound))
            && (IsLegal(name) && id !in s.files && (o.create || o.createNew) && (forall k: nat :: !FreeAt(s.used, k, n)) ==>
                  s' == s && out == Failed(DirectoryFull))
    ensures var id, n := Upcased(w.table, name), SetLength(|name|);
            var (s', out) := Step(w, s, Op.Open(name, o, t));
            forall k: nat ::
              (IsLegal(name) && id !in s.files && (o.create || o.createNew) && k < Capacity(w.g, w.dir)
                && FreeAt(s.used, k, n) && forall j: nat :: j < k ==> !FreeAt(s.used, j, n)) ==>
              && out == Done && s'.files.Keys == s.files.Keys + {id}
              && (forall j :: j in s.files ==> s'.files[j] == s.files[j])
              && s'.files[id] == AFile([], 0, Some(Mode(0, o.read, o.write)), PlaceOf(w.g, w.dir, k), n - 1)
              && |s'.used| == |s.used|
              && forall i :: 0 <= i < |s.used| ==> s'.used[i] == (k <= i < k + n || s.used[i])
  {
    hide IsLegal, Upcased, Capacity, PlaceOf, SetLength, FreeAt, RoomIn, AppendsWell;
    assert IsLegal(name) ==> name != [] by {
      if IsLegal(name) { LegalNotEmpty(name); }
    }
  }

  /** Working on an open file, case by case and byte by byte. */
  lemma NextGives(f: AFile, op: Op)
    requires f.mode.Some? && !op.Open? && !op.Remove? && (op.Write? ==> f.mode.value.at <= |f.bytes|)
    ensures var ((f', out), m) := (Next(f, op), f.mode.value);
            && f'.location == f.location && f'.secondaryCount == f.secondaryCount
            && (!op.Write? ==> f'.bytes == f.bytes && f'.valid == f.valid)
            && match op
               case Write(_, x) =>
                 if x == [] then f' == f && out == Done
                 else if !m.canWrite then f' == f && out == Failed(WriteNotEnabled)
                 else
                   && out == Done && f'.mode == Some(Mode(m.at + |x|, m.canRead, m.canWrite))
                   && |f'.bytes| == (if m.at + |x| > |f.bytes| then m.at + |x| else |f.bytes|)
                   && f'.valid == (if m.at + |x| > f.valid then m.at + |x| else f.valid)
                   && forall i :: 0 <= i < |f'.bytes| ==>
                        f'.bytes[i] == if m.at <= i < m.at + |x| then x[i - m.at] else f.bytes[i]
               case Read(_, n) =>
                 if !m.canRead then f' == f && out == Failed(ReadNotEnabled)
                 else if m.at >= |f.bytes| then f' == f && out == Got(None)
                 else
                   && out.Got? && out.data.Some? && |out.data.value| == (if n < |f.bytes| - m.at then n else |f.bytes| - m.at)
                   && (forall i :: 0 <= i < |out.data.value| ==> out.data.value[i] == f.bytes[m.at + i])
                   && f'.mode == Some(Mode(m.at + |out.data.value|, m.canRead, m.canWrite))
               case Seek(_, pos) =>
                 if pos > f.valid then f' == f && out == Failed(SeekOutOfRange)
                 else out == Done && f'.mode == Some(Mode(pos, m.canRead, m.canWrite))
               case Flush(_, _) => f' == f && out == Done
               case Close(_, _) => f'.mode == None && out == Done
  {
    hide WriteAt;
    if op.Write? {
      WrittenBytes(f.bytes, f.mode.value.at, op.x);
    }
  }

  /** No other file changes, and no entry of the directory comes into use or goes out of use. */
  lemma HandleGives(w: World, s: AState, op: Op)
    requires w.Valid() && |s.used| == Capacity(w.g, w.dir) && Sane(s) && Allowed(w, s, op) && !op.Open? && !op.Remove?
    ensures IsOpen(s.files, op.id)
    ensures var (s', out) := Step(w, s, op);
            && s'.used == s.used && s'.files.Keys == s.files.Keys && (s'.files[op.id], out) == Next(s.files[op.id], op)
            && forall j :: j in s.files && j != op.id ==> s'.files[j] == s.files[j]
  {
    hide BadTail, Capacity, Next;
    assert IsOpen(s.files, op.id);
    assert s.files.Keys + {op.id} == s.files.Keys;
  }

  lemma WrittenBytes(b: seq<byte>, at: nat, x: seq<byte>)
    requires at <= |b|
    ensures var r := WriteAt(b, at, x);
            && |r| == (if at + |x| > |b| then at + |x| else |b|)
            && forall i :: 0 <= i < |r| ==> r[i] == if at <= i < at + |x| then x[i - at] else b[i]
  {
  }

  // ---- room for clusters ---------------------------------------------------------------------------------

  ghost function ClusterCounts(g: Geometry, files: map<Name, AFile>): map<Name, nat>
    requires g.Valid()
  {
    map id | id in files :: ClustersFor(|files[id].bytes|, g)
  }

  /** All files together have no more clusters than there is room for. */
  ghost predicate Fits(g: Geometry, room: nat, files: map<Name, AFile>)
    requires g.Valid()
  {
    Total(ClusterCounts(g, files)) <= room
  }

  // ---- runs --------------------------------------------------------------------------------------------

  /** The operation is a write for which there are too few clusters. */
  ghost predicate Full(w: World, room: nat, s: AState, op: Op)
    requires w.Valid() && |s.used| == Capacity(w.g, w.dir) && Sane(s) && Allowed(w, s, op)
  {
    op.Write? && !Fits(w.g, room, Step(w, s, op).0.files)
  }

  ghost predicate RunAllowed(w: World, room: nat, s: AState, ops: seq<Op>)
    requires w.Valid() && |s.used| == Capacity(w.g, w.dir) && Sane(s)
    decreases |ops|
  {
    ops != [] ==>
      Allowed(w, s, ops[0]) &&
      (Full(w, room, s, ops[0]) || RunAllowed(w, room, Step(w, s, ops[0]).0, ops[1..]))
  }

  /** A run: what the operations return, up to and including the first write that there is no room for,
      and the state the run ends in if there is none. */
  datatype Trace = Trace(outs: seq<Out>, end: Option<AState>)

  ghost function RunOf(w: World, room: nat, s: AState, ops: seq<Op>): Trace
    requires w.Valid() && |s.used| == Capacity(w.g, w.dir) && Sane(s) && RunAllowed(w, room, s, ops)
    decreases |ops|
  {
    if ops == [] then Trace([], Some(s))
    else if Full(w, room, s, ops[0]) then Trace([Failed(DiskFull)], None)
    else
      var step := Step(w, s, ops[0]);
      var rest := RunOf(w, room, step.0, ops[1..]);
      Trace([step.1] + rest.outs, rest.end)
  }

  lemma RunUnfolds(w: World, room: nat, s: AState, ops: seq<Op>)
    requires w.Valid() && |s.used| == Capacity(w.g, w.dir) && Sane(s) && RunAllowed(w, room, s, ops) && ops != []
    ensures Allowed(w, s, ops[0])
    ensures if Full(w, room, s, ops[0]) then RunOf(w, room, s, ops) == Trace([Failed(DiskFull)], None)
            else
              var step := Step(w, s, ops[0]);
              RunAllowed(w, room, step.0, ops[1..]) &&
              var rest := RunOf(w, room, step.0, ops[1..]);
              RunOf(w, room, s, ops) == Trace([step.1] + rest.outs, rest.end)
  {
    hide Allowed, Step, Fits, Sane, Capacity;
  }

  lemma RunEnds(w: World, room: nat, s: AState)
    requires w.Valid() && |s.used| == Capacity(w.g, w.dir) && Sane(s)
    ensures RunAllowed(w, room, s, []) && RunOf(w, room, s, []) == Trace([], Some(s))
  {
  }

  lemma NeverFull(w: World, s: AState, op: Op)
    requires w.Valid() && |s.used| == Capacity(w.g, w.dir) && Sane(s) && Allowed(w, s, op)
    ensures Step(w, s, op).1 != Failed(DiskFull)
  {
    hide Mark, IndexAt, PlaceOf, LeastFree;
  }

  /** The model reads back what it wrote. */
  lemma ReadBack(f: AFile, id: Name, x: seq<byte>)
    requires f.mode.Some? && f.mode.value.canWrite && f.mode.value.canRead && f.mode.value.at <= f.valid <= |f.bytes|
    requires x != []
    ensures var f1 := Next(f, Write(id, x)).0;
            var f2 := Next(f1, Seek(id, f.mode.value.at)).0;
            Next(f2, Read(id, |x|)).1 == Got(Some(x))
  {
    var f1 := Next(f, Write(id, x)).0;
    assert f1.bytes[f.mode.value.at..f.mode.value.at + |x|] == x;
  }

  /** A handle can write exactly when it was opened with `write`; `append` alone does not do. */
  lemma WritesIffWrite(f: AFile, o: OpenOptions, id: Name, x: seq<byte>)
    requires f.valid <= |f.bytes| && x != []
    ensures Next(OpenedAs(f, o), Write(id, x)).1 == (if o.write then Done else Failed(WriteNotEnabled))
  {
  }

  /** `create` makes a file, if there is room for its entry set, also without `write` and `append`. */
  lemma CreatesUnwritable(w: World, s: AState, name: seq<u16>, t: Stamp)
    requires w.Valid() && |s.used| == Capacity(w.g, w.dir) && Sane(s) && IsLegal(name)
    requires Upcased(w.table, name) !in s.files
    requires |name| <= 255 && RoomIn(w.g, s.used, SetLength(|name|)) && LeastFree(s.used, SetLength(|name|), 0).Some?
    ensures var op := Op.Open(name, OpenOptions(true, false, false, false, true, false), t);
            Allowed(w, s, op) && Step(w, s, op).1 == Done && Upcased(w.table, name) in Step(w, s, op).0.files
  {
    hide IsLegal, Upcased, LeastFree, Mark, PlaceOf, RoomIn;
    LegalNotEmpty(name);
  }

  /** `truncate` empties a file that is opened for reading only. */
  lemma TruncatesUnwritable(w: World, s: AState, name: seq<u16>, t: Stamp)
    requires w.Valid() && |s.used| == Capacity(w.g, w.dir) && Sane(s) && IsLegal(name)
    requires IsClosed(s.files, Upcased(w.table, name))
    ensures var op := Op.Open(name, OpenOptions(true, false, false, true, false, false), t);
            Allowed(w, s, op) && Step(w, s, op).1 == Done && Step(w, s, op).0.files[Upcased(w.table, name)].bytes == []
  {
    hide IsLegal, Upcased, LeastFree, Mark, PlaceOf, RoomIn;
    LegalNotEmpty(name);
  }
}
