/** The 32-byte entries of a directory and their encodings (src/directory_entry.rs:18-350). */
module DirEntry {
  import opened Bytes
  import opened Results

  type u16 = x: int | 0 <= x < TWO16
  type u32 = x: int | 0 <= x < TWO32
  type u64 = x: int | 0 <= x < TWO64

  type RawEntry = r: seq<byte> | |r| == 32 witness seq(32, i => 0)

  // ---- entry types ------------------------------------------------------------------

  datatype EntryType =
    | EndOfDirectory
    | Unused(b: byte)
    | AllocationBitmap
    | UpcaseTable
    | VolumeLabel
    | FileAndDirectory
    | VolumeGuid
    | TexFatPadding
    | StreamExtension
    | FileName
    | Reserved(b: byte)
  {
    function Serialize(): byte {
      match this
      case EndOfDirectory => 0x00
      case Unused(x) => x
      case AllocationBitmap => 0x81
      case UpcaseTable => 0x82
      case VolumeLabel => 0x83
      case FileAndDirectory => 0x85
      case VolumeGuid => 0xA0
      case TexFatPadding => 0xA1
      case StreamExtension => 0xC0
      case FileName => 0xC1
      case Reserved(x) => x
    }
  }

  /** `From<u8> for EntryType`; the in-use bit is the highest. */
  function TypeOf(b: byte): EntryType {
    if b == 0x00 then EndOfDirectory
    else if b < 0x80 then Unused(b)
    else if b == 0x81 then AllocationBitmap
    else if b == 0x82 then UpcaseTable
    else if b == 0x83 then VolumeLabel
    else if b == 0x85 then FileAndDirectory
    else if b == 0xA0 then VolumeGuid
    else if b == 0xA1 then TexFatPadding
    else if b == 0xC0 then StreamExtension
    else if b == 0xC1 then FileName
    else Reserved(b)
  }

  /** Every byte is the code of its type, and an entry is free when its type says so. */
  lemma TypeRoundTrip(b: byte)
    ensures TypeOf(b).Serialize() == b
    ensures TypeOf(b).EndOfDirectory? || TypeOf(b).Unused? <==> b < 0x80
  {
  }

  predicate InUse(r: RawEntry) { r[0] >= 0x80 }

  predicate IsFile(r: RawEntry) { TypeOf(r[0]) == FileAndDirectory }

  predicate IsStream(r: RawEntry) { TypeOf(r[0]) == StreamExtension }

  predicate IsName(r: RawEntry) { TypeOf(r[0]) == FileName }

  /** `is_end_of_directory`: all bytes are zero. */
  predicate IsEndMarker(r: RawEntry) { forall i :: 0 <= i < 32 ==> r[i] == 0 }

  /** The codes of the three kinds of entry in a file's set. */
  lemma EntryCodes(r: RawEntry)
    ensures IsFile(r) <==> r[0] == 0x85
    ensures IsStream(r) <==> r[0] == 0xC0
    ensures IsName(r) <==> r[0] == 0xC1
  {
  }

  // ---- flags ---------------------------------------------------------------------------

  /** `FileAttributes::from_bits_truncate`: keeps ReadOnly, Hidden, System, Directory, Archive. */
  function KnownAttributes(bits: u16): (r: u16)
    ensures r <= bits
  {
    bits % 8 + 16 * (bits / 16 % 4)
  }

  /** `GeneralSecondaryFlags::from_bits_truncate`: keeps AllocationPossible and NoFatChain. */
  function KnownFlags(bits: byte): byte { bits % 4 }

  type Attributes = a: u16 | KnownAttributes(a) == a witness 0
  type SecondaryFlags = f: byte | KnownFlags(f) == f witness 0

  const ARCHIVE: Attributes := 0x20
  const DIRECTORY: Attributes := 0x10

  predicate NoFatChain(f: SecondaryFlags) { f >= 2 }

  // ---- the three kinds of entry in a file's set -------------------------------------------

  datatype FileDirEntry = FileDirEntry(
    secondaryCount: byte,
    setChecksum: u16,
    attributes: Attributes,
    createTimestamp: u32,
    modifiedTimestamp: u32,
    accessedTimestamp: u32,
    create10ms: byte,
    modified10ms: byte,
    createUtcOffset: byte,
    modifiedUtcOffset: byte,
    accessedUtcOffset: byte)

  function SerializeFile(e: FileDirEntry): (r: RawEntry)
    ensures IsFile(r)
  {
    [0x85, e.secondaryCount] + LE16(e.setChecksum) + LE16(e.attributes) + [0, 0]
    + LE32(e.createTimestamp) + LE32(e.modifiedTimestamp) + LE32(e.accessedTimestamp)
    + [e.create10ms, e.modified10ms, e.createUtcOffset, e.modifiedUtcOffset, e.accessedUtcOffset]
    + [0, 0, 0, 0, 0, 0, 0]
  }

  function ParseFile(r: RawEntry): FileDirEntry {
    KnownTwice(FromLE16(r[4..6]));
    FileDirEntry(r[1], FromLE16(r[2..4]), KnownAttributes(FromLE16(r[4..6])),
                 FromLE32(r[8..12]), FromLE32(r[12..16]), FromLE32(r[16..20]),
                 r[20], r[21], r[22], r[23], r[24])
  }

  lemma KnownTwice(bits: u16)
    ensures KnownAttributes(KnownAttributes(bits)) == KnownAttributes(bits)
  {
    var a, b := bits % 8, bits / 16 % 4;
    var k := KnownAttributes(bits);
    assert k == a + 16 * b && 0 <= a < 8 && 0 <= b < 4;
    assert k / 16 == b && k % 8 == a;
  }

  lemma FileRoundTrip(e: FileDirEntry)
    ensures ParseFile(SerializeFile(e)) == e
  {
    var r := SerializeFile(e);
    assert r[2..4] == LE16(e.setChecksum);
    assert r[4..6] == LE16(e.attributes);
    assert r[8..12] == LE32(e.createTimestamp);
    assert r[12..16] == LE32(e.modifiedTimestamp);
    assert r[16..20] == LE32(e.accessedTimestamp);
    LE32RoundTrip(e.createTimestamp);
    LE32RoundTrip(e.modifiedTimestamp);
    LE32RoundTrip(e.accessedTimestamp);
  }

  /** Which byte of the entry holds what: the layout of section 7.4 of the exFAT specification,
      with zeros where the program keeps nothing. */
  lemma FileBytes(e: FileDirEntry)
    ensures var r := SerializeFile(e);
            && r[0] == 0x85 && r[1] == e.secondaryCount && Int16At(r, 2, e.setChecksum) && Int16At(r, 4, e.attributes)
            && r[6] == 0 && r[7] == 0
            && Int32At(r, 8, e.createTimestamp) && Int32At(r, 12, e.modifiedTimestamp) && Int32At(r, 16, e.accessedTimestamp)
            && r[20] == e.create10ms && r[21] == e.modified10ms
            && r[22] == e.createUtcOffset && r[23] == e.modifiedUtcOffset && r[24] == e.accessedUtcOffset
            && forall i :: 25 <= i < 32 ==> r[i] == 0
  {
    hide Int16At, Int32At, LE32, LE16;
    var r := SerializeFile(e);
    assert r[2..4] == LE16(e.setChecksum) && r[4..6] == LE16(e.attributes);
    assert r[8..12] == LE32(e.createTimestamp) && r[12..16] == LE32(e.modifiedTimestamp);
    assert r[16..20] == LE32(e.accessedTimestamp);
    Stored16(r, 2, e.setChecksum);
    Stored16(r, 4, e.attributes);
    Stored32(r, 8, e.createTimestamp);
    Stored32(r, 12, e.modifiedTimestamp);
    Stored32(r, 16, e.accessedTimestamp);
  }

  lemma LowBits(lo: byte, hi: byte)
    ensures KnownAttributes(lo as int + 256 * hi as int) == lo as int % 8 + lo as int / 16 % 4 * 16
  {
    var bits := lo as int + 256 * hi as int;
    assert bits % 8 == lo as int % 8;
    assert bits / 16 == lo as int / 16 + 16 * hi as int;
  }

  /** And what is read back from any entry, of which unknown attributes are ignored. */
  lemma FileFields(r: RawEntry)
    ensures var e := ParseFile(r);
            && e.secondaryCount == r[1] && Int16At(r, 2, e.setChecksum)
            && e.attributes == r[4] as int % 8 + r[4] as int / 16 % 4 * 16
            && Int32At(r, 8, e.createTimestamp) && Int32At(r, 12, e.modifiedTimestamp) && Int32At(r, 16, e.accessedTimestamp)
            && e.create10ms == r[20] && e.modified10ms == r[21]
            && e.createUtcOffset == r[22] && e.modifiedUtcOffset == r[23] && e.accessedUtcOffset == r[24]
  {
    hide Int16At, Int32At, FromLE32;
    Read16(r, 2);
    Read32(r, 8);
    Read32(r, 12);
    Read32(r, 16);
    LowBits(r[4], r[5]);
  }

  datatype StreamEntry = StreamEntry(
    flags: SecondaryFlags,
    nameLength: byte,
    nameHash: u16,
    validDataLength: u64,
    firstCluster: u32,
    dataLength: u64)

  function SerializeStream(e: StreamEntry): (r: RawEntry)
    ensures IsStream(r)
  {
    [0xC0, e.flags, 0, e.nameLength] + LE16(e.nameHash) + [0, 0]
    + LE64(e.validDataLength) + [0, 0, 0, 0] + LE32(e.firstCluster) + LE64(e.dataLength)
  }

  function ParseStream(r: RawEntry): StreamEntry {
    StreamEntry(KnownFlags(r[1]), r[3], FromLE16(r[4..6]), FromLE64(r[8..16]), FromLE32(r[20..24]), FromLE64(r[24..32]))
  }

  lemma StreamRoundTrip(e: StreamEntry)
    ensures ParseStream(SerializeStream(e)) == e
  {
    var r := SerializeStream(e);
    assert r[4..6] == LE16(e.nameHash);
    assert r[8..16] == LE64(e.validDataLength);
    assert r[20..24] == LE32(e.firstCluster);
    assert r[24..32] == LE64(e.dataLength);
    LE64RoundTrip(e.validDataLength);
    LE32RoundTrip(e.firstCluster);
    LE64RoundTrip(e.dataLength);
  }

  lemma StreamBytes(e: StreamEntry)
    ensures var r := SerializeStream(e);
            && r[0] == 0xC0 && r[1] == e.flags && r[2] == 0 && r[3] == e.nameLength && Int16At(r, 4, e.nameHash)
            && r[6] == 0 && r[7] == 0 && Int64At(r, 8, e.validDataLength)
            && (forall i :: 16 <= i < 20 ==> r[i] == 0)
            && Int32At(r, 20, e.firstCluster) && Int64At(r, 24, e.dataLength)
  {
    hide Int16At, Int32At, Int64At, LE32, LE16, LE64;
    var r := SerializeStream(e);
    assert r[4..6] == LE16(e.nameHash) && r[8..16] == LE64(e.validDataLength);
    assert r[20..24] == LE32(e.firstCluster) && r[24..32] == LE64(e.dataLength);
    Stored16(r, 4, e.nameHash);
    Stored64(r, 8, e.validDataLength);
    Stored32(r, 20, e.firstCluster);
    Stored64(r, 24, e.dataLength);
  }

  lemma StreamFields(r: RawEntry)
    ensures var e := ParseStream(r);
            && e.flags == r[1] % 4 && e.nameLength == r[3] && Int16At(r, 4, e.nameHash)
            && Int64At(r, 8, e.validDataLength) && Int32At(r, 20, e.firstCluster) && Int64At(r, 24, e.dataLength)
  {
    hide Int16At, Int32At, Int64At, FromLE32, FromLE16, FromLE64;
    Read16(r, 4);
    Read64(r, 8);
    Read32(r, 20);
    Read64(r, 24);
  }

  type NameUnits = u: seq<u16> | |u| == 15 witness seq(15, i => 0)

  function UnitBytes(units: seq<u16>): (r: seq<byte>)
    ensures |r| == 2 * |units|
    ensures forall i :: 0 <= i < |units| ==> r[2 * i] == LE16(units[i])[0] && r[2 * i + 1] == LE16(units[i])[1]
  {
    if units == [] then []
    else UnitBytes(units[..|units| - 1]) + LE16(units[|units| - 1])
  }

  function SerializeName(flags: SecondaryFlags, units: NameUnits): (r: RawEntry)
    ensures IsName(r)
  {
    [0xC1, flags as byte] + UnitBytes(units)
  }

  /** Unit `i` of a file name entry. */
  function UnitAt(r: RawEntry, i: nat): u16
    requires i < 15
  {
    FromLE16(r[2 + 2 * i..4 + 2 * i])
  }

  function ParseName(r: RawEntry): NameUnits {
    seq(15, i requires 0 <= i < 15 => UnitAt(r, i))
  }

  lemma NameRoundTrip(flags: SecondaryFlags, units: NameUnits)
    ensures ParseName(SerializeName(flags, units)) == units
    ensures KnownFlags(SerializeName(flags, units)[1]) == flags
  {
    var r := SerializeName(flags, units);
    forall i | 0 <= i < 15 ensures UnitAt(r, i) == units[i] {
      assert r[2 + 2 * i] == LE16(units[i])[0] && r[3 + 2 * i] == LE16(units[i])[1];
    }
  }

  /** The units of a name entry are stored from byte 2 on, the low byte of each first. */
  lemma NameBytes(flags: SecondaryFlags, units: NameUnits)
    ensures var r := SerializeName(flags, units);
            r[0] == 0xC1 && r[1] == flags && forall i :: 0 <= i < 15 ==> Int16At(r, 2 + 2 * i, units[i])
  {
    hide UnitBytes, Int16At, LE16;
    var r := SerializeName(flags, units);
    forall i | 0 <= i < 15 ensures Int16At(r, 2 + 2 * i, units[i]) {
      assert r[2 + 2 * i..4 + 2 * i] == LE16(units[i]);
      Stored16(r, 2 + 2 * i, units[i]);
    }
  }

  lemma NameFields(r: RawEntry, i: nat)
    requires i < 15
    ensures Int16At(r, 2 + 2 * i, ParseName(r)[i])
  {
    Read16(r, 2 + 2 * i);
  }
}
