/** File names as sequences of UTF-16 units: up-casing, the name hash, and cutting a name into the
    15-unit parts of file name entries (src/utils.rs:29-112, src/upcase_table.rs:71-79; sections
    7.2.5 and 7.6.4 of the exFAT specification). */
module Names {
  import opened Bytes
  import opened DirEntry
  import opened Results

  /** The part of the up-case table that is kept: the first 128 units. */
  type UpcaseMap = m: seq<u16> | |m| == 128 witness seq(128, i => 0)

  /** An up-cased name: what identifies a file within a directory. */
  type Name = seq<u16>

  function Upcase(table: UpcaseMap, c: u16): u16 {
    if c < |table| then table[c] else c
  }

  function Upcased(table: UpcaseMap, name: seq<u16>): (r: seq<u16>)
    ensures |r| == |name|
  {
    seq(|name|, i requires 0 <= i < |name| => Upcase(table, name[i]))
  }

  /** Two units that the table does not tell apart. It has entries for the units below 128 alone: any other
      unit stands for itself. */
  predicate SameUnit(table: UpcaseMap, a: u16, b: u16) {
    if a < 128 && b < 128 then table[a] == table[b]
    else if a < 128 then table[a] == b
    else if b < 128 then a == table[b]
    else a == b
  }

  /** Names that are the same up to case. */
  ghost predicate SameName(table: UpcaseMap, a: seq<u16>, b: seq<u16>) {
    |a| == |b| && forall i :: 0 <= i < |a| ==> SameUnit(table, a[i], b[i])
  }

  /** They are the names that identify the same file. */
  lemma SameNameUpcased(table: UpcaseMap, a: seq<u16>, b: seq<u16>)
    ensures Upcased(table, a) == Upcased(table, b) <==> SameName(table, a, b)
  {
    if Upcased(table, a) == Upcased(table, b) {
      forall i | 0 <= i < |a| ensures SameUnit(table, a[i], b[i]) {
        assert Upcased(table, a)[i] == Upcased(table, b)[i];
      }
    }
  }

  /** The table that is there before that of a volume is loaded: the small letters of ASCII stand for the capital ones. */
  function DefaultTable(): UpcaseMap { seq(128, i => if 0x61 <= i <= 0x7A then i - 0x20 else i) }

  /** The same unit, or the two cases of one ASCII letter. */
  predicate SameLetter(a: u16, b: u16) {
    a == b || (0x61 <= a <= 0x7A && a == b + 0x20) || (0x61 <= b <= 0x7A && b == a + 0x20)
  }

  /** With it names identify the same file when they differ in the case of ASCII letters alone. */
  lemma DefaultSameName(a: seq<u16>, b: seq<u16>)
    ensures SameName(DefaultTable(), a, b) <==>
            |a| == |b| && forall i :: 0 <= i < |a| ==> SameLetter(a[i], b[i])
  {
    assert forall x: u16, y: u16 :: SameUnit(DefaultTable(), x, y) <==> SameLetter(x, y);
  }

  /** One step of the rotating checksums of the format: rotate right by one, then add a byte. */
  function RotateAdd(h: u16, b: byte): u16 {
    ((h % 2) * 0x8000 + h / 2 + b) % TWO16
  }

  /** The name hash over up-cased units, low byte first. */
  function HashOf(units: seq<u16>): u16 {
    if units == [] then 0
    else
      var c := units[|units| - 1];
      RotateAdd(RotateAdd(HashOf(units[..|units| - 1]), c % 256), c / 256)
  }

  lemma SumsApart(r: nat, r': nat, b: byte, b': byte)
    requires r < TWO16 && r' < TWO16
    ensures r != r' ==> (r + b) % TWO16 != (r' + b) % TWO16
    ensures b != b' ==> (r + b) % TWO16 != (r + b') % TWO16
  {
    assert (r + b) % TWO16 == if r + b < TWO16 then r + b else r + b - TWO16;
    assert (r' + b) % TWO16 == if r' + b < TWO16 then r' + b else r' + b - TWO16;
    assert (r + b') % TWO16 == if r + b' < TWO16 then r + b' else r + b' - TWO16;
  }

  lemma RotateApart(h: u16, h': u16, b: byte, b': byte)
    ensures h != h' ==> RotateAdd(h, b) != RotateAdd(h', b)
    ensures b != b' ==> RotateAdd(h, b) != RotateAdd(h, b')
  {
    SumsApart(h % 2 * 0x8000 + h / 2, h' % 2 * 0x8000 + h' / 2, b, b');
  }

  /** The hash tells names apart that differ in one byte of one unit. */
  lemma {:induction false} HashTells(a: seq<u16>, b: seq<u16>, i: nat)
    requires |b| == |a| && i < |a| && b[i] != a[i] && forall j :: 0 <= j < |a| && j != i ==> b[j] == a[j]
    requires b[i] % 256 == a[i] % 256 || b[i] / 256 == a[i] / 256
    ensures HashOf(b) != HashOf(a)
  {
    hide RotateAdd;
    var n := |a| - 1;
    var h, h' := HashOf(a[..n]), HashOf(b[..n]);
    if i == n {
      assert b[..n] == a[..n];
      RotateApart(h, h, a[n] % 256, b[n] % 256);
      RotateApart(RotateAdd(h, a[n] % 256), RotateAdd(h, b[n] % 256), a[n] / 256, b[n] / 256);
    } else {
      HashTells(a[..n], b[..n], i);
      RotateApart(h, h', a[n] % 256, 0);
      RotateApart(RotateAdd(h, a[n] % 256), RotateAdd(h', a[n] % 256), a[n] / 256, 0);
    }
  }

  /** Taking in the units `x` one by one goes through the hashes `h`. */
  lemma {:induction false} Hashed(a: seq<u16>, x: seq<u16>, h: seq<u16>)
    requires |h| == |x| + 1 && HashOf(a) == h[0]
    requires forall i :: 0 <= i < |x| ==> h[i + 1] == RotateAdd(RotateAdd(h[i], x[i] % 256), x[i] / 256)
    ensures HashOf(a + x) == h[|x|]
  {
    hide RotateAdd;
    if x == [] {
      assert a + x == a;
    } else {
      var n := |x| - 1;
      Hashed(a, x[..n], h[..n + 1]);
      assert (a + x)[..|a| + n] == a + x[..n];
    }
  }

  lemma HashOfHello()
    ensures HashOf([0x48, 0x45, 0x4C, 0x4C, 0x4F]) == 3636
  {
    hide HashOf;
    assert HashOf([]) == 0 by { NoUnits(); HashPanics([]); }
    assert [] + [0x48, 0x45, 0x4C, 0x4C, 0x4F] == [0x48, 0x45, 0x4C, 0x4C, 0x4F];
    Hashed([], [0x48, 0x45, 0x4C, 0x4C, 0x4F], [0, 36, 32811, 57392, 14386, 3636]);
  }

  /** The hash of `HELLO.TXT`. */
  lemma HashOfHelloTxt()
    ensures HashOf([0x48, 0x45, 0x4C, 0x4C, 0x4F] + [0x2E, 0x54, 0x58, 0x54]) == 0x3046
  {
    hide HashOf;
    HashOfHello();
    Hashed([0x48, 0x45, 0x4C, 0x4C, 0x4F], [0x2E, 0x54, 0x58, 0x54], [3636, 932, 275, 49264, 12358]);
  }

  /** And of a unit with two bytes, of which the low one comes first. */
  lemma HashOfWide()
    ensures HashOf([0x1234]) == 0x2C
  {
    hide HashOf;
    assert HashOf([]) == 0 by { NoUnits(); HashPanics([]); }
    assert [] + [0x1234] == [0x1234];
    Hashed([], [0x1234], [0, 0x2C]);
  }

  /** Adding the two bytes of a unit goes beyond sixteen bits. */
  predicate UnitWraps(h: u16, c: u16) {
    (h % 2) * 0x8000 + h / 2 + c % 256 >= TWO16
    || (RotateAdd(h, c % 256) % 2) * 0x8000 + RotateAdd(h, c % 256) / 2 + c / 256 >= TWO16
  }

  /** The name hash in builds that check additions for overflow; `None` is a panic. */
  function CheckedHash(units: seq<u16>): Option<u16> {
    if units == [] then Some(0)
    else
      match CheckedHash(units[..|units| - 1])
      case None => None
      case Some(h) =>
        var c := units[|units| - 1];
        if UnitWraps(h, c) then None else Some(RotateAdd(RotateAdd(h, c % 256), c / 256))
  }

  /** Some addition of the name hash goes beyond sixteen bits. */
  ghost predicate SomeWraps(units: seq<u16>) {
    exists i :: 0 <= i < |units| && UnitWraps(HashOf(units[..i]), units[i])
  }

  lemma WrapsAppended(units: seq<u16>, c: u16)
    ensures SomeWraps(units + [c]) <==> SomeWraps(units) || UnitWraps(HashOf(units), c)
  {
    hide HashOf, UnitWraps;
    var more := units + [c];
    assert more[..|units|] == units && more[|units|] == c;
    assert forall i :: 0 <= i < |units| ==> more[..i] == units[..i] && more[i] == units[i];
    if SomeWraps(units) {
      var i :| 0 <= i < |units| && UnitWraps(HashOf(units[..i]), units[i]);
      assert UnitWraps(HashOf(more[..i]), more[i]);
    }
  }

  lemma HashAppended(units: seq<u16>, c: u16)
    ensures HashOf(units + [c]) == RotateAdd(RotateAdd(HashOf(units), c % 256), c / 256)
    ensures CheckedHash(units + [c]) ==
              match CheckedHash(units)
              case None => None
              case Some(h) => if UnitWraps(h, c) then None else Some(RotateAdd(RotateAdd(h, c % 256), c / 256))
  {
    hide RotateAdd, UnitWraps;
    assert (units + [c])[..|units|] == units;
  }

  /** Such a build panics exactly when some addition wraps around in other builds, and otherwise computes
      the same hash. */
  lemma {:induction false} HashPanics(units: seq<u16>)
    ensures CheckedHash(units).None? <==> SomeWraps(units)
    ensures CheckedHash(units).Some? ==> CheckedHash(units).value == HashOf(units)
    decreases |units|
  {
    if units != [] {
      hide SomeWraps, UnitWraps, RotateAdd, HashOf, CheckedHash;
      var n := |units| - 1;
      assert units == units[..n] + [units[n]];
      HashPanics(units[..n]);
      HashAppended(units[..n], units[n]);
      WrapsAppended(units[..n], units[n]);
    }
  }

  lemma NextHash(units: seq<u16>, c: u16, more: seq<u16>, h: u16, h': u16)
    requires more == units + [c] && CheckedHash(units) == Some(h) && !UnitWraps(h, c)
    requires h' == RotateAdd(RotateAdd(h, c % 256), c / 256)
    ensures CheckedHash(more) == Some(h')
  {
    hide CheckedHash;
    HashAppended(units, c);
  }

  lemma NoUnits()
    ensures CheckedHash([]) == Some(0)
  {
  }

  lemma HashOfCCC()
    ensures CheckedHash([0x43, 0x43, 0x43]) == Some(0xF82B)
  {
    hide CheckedHash;
    NoUnits();
    NextHash([], 0x43, [0x43], 0, 0x8021);
    NextHash([0x43], 0x43, [0x43, 0x43], 0x8021, 0xE029);
    NextHash([0x43, 0x43], 0x43, [0x43, 0x43, 0x43], 0xE029, 0xF82B);
  }

  lemma HashOfCCCBB()
    ensures CheckedHash([0x43, 0x43, 0x43, 0x42, 0x42]) == Some(0xFFAB)
  {
    hide CheckedHash;
    HashOfCCC();
    NextHash([0x43, 0x43, 0x43], 0x42, [0x43, 0x43, 0x43, 0x42], 0xF82B, 0xFE2B);
    NextHash([0x43, 0x43, 0x43, 0x42], 0x42, [0x43, 0x43, 0x43, 0x42, 0x42], 0xFE2B, 0xFFAB);
  }

  /** It panics on the name `CCCBBA`. */
  lemma ShortNamePanics()
    ensures IsLegal([0x43, 0x43, 0x43, 0x42, 0x42, 0x41]) && CheckedHash([0x43, 0x43, 0x43, 0x42, 0x42, 0x41]) == None
  {
    hide CheckedHash;
    HashOfCCCBB();
    HashAppended([0x43, 0x43, 0x43, 0x42, 0x42], 0x41);
    assert [0x43, 0x43, 0x43, 0x42, 0x42] + [0x41] == [0x43, 0x43, 0x43, 0x42, 0x42, 0x41];
  }

  predicate IsIllegal(c: u16) {
    c <= 0x1F || c in {0x22, 0x2A, 0x2F, 0x3A, 0x3C, 0x3E, 0x3F, 0x5C, 0x7C}
  }

  /** The characters that no name may have: control characters, quotes, and those with a meaning in paths. */
  lemma IllegalIs(c: u16)
    ensures IsIllegal(c) <==>
            c < 0x20 || c == '"' as int || c == '*' as int || c == '/' as int || c == ':' as int || c == '<' as int
            || c == '>' as int || c == '?' as int || c == '\\' as int || c == '|' as int
  {
  }

  const DOT: u16 := 0x2E

  /** Names a file may have: not empty, not `.` or `..`, and without illegal characters. */
  predicate IsLegal(name: seq<u16>) {
    name != [] && name != [DOT] && name != [DOT, DOT] && forall i :: 0 <= i < |name| ==> !IsIllegal(name[i])
  }

  lemma LegalNotEmpty(name: seq<u16>)
    requires IsLegal(name)
    ensures name != []
  {
  }

  /** `encode_utf16_upcase_and_hash`: succeeds exactly on legal names, and then yields the hash of
      the up-cased name and its length. */
  method EncodeAndHash(table: UpcaseMap, name: seq<u16>) returns (r: Result<(u16, nat)>)
    ensures r.Ok? <==> IsLegal(name)
    ensures r.Ok? ==> r.value == (HashOf(Upcased(table, name)), |name|)
    ensures r.Err? ==> r == Err(InvalidFileName)
  {
    if name == [DOT] || name == [DOT, DOT] {
      return Err(InvalidFileName);
    }
    var hash: u16 := 0;
    for i := 0 to |name|
      invariant hash == HashOf(Upcased(table, name)[..i])
      invariant forall j :: 0 <= j < i ==> !IsIllegal(name[j])
    {
      if IsIllegal(name[i]) {
        return Err(InvalidFileName);
      }
      var c := Upcase(table, name[i]);
      assert Upcased(table, name)[..i + 1][..i] == Upcased(table, name)[..i];
      hash := RotateAdd(hash, c % 256);
      hash := RotateAdd(hash, c / 256);
    }
    if name == [] {
      return Err(InvalidFileName);
    }
    assert Upcased(table, name)[..|name|] == Upcased(table, name);
    r := Ok((hash, |name|));
  }

  /** Names that differ only in case share hash and length. */
  lemma EqualUpcasedEqualHash(table: UpcaseMap, a: seq<u16>, b: seq<u16>)
    requires Upcased(table, a) == Upcased(table, b)
    ensures HashOf(Upcased(table, a)) == HashOf(Upcased(table, b)) && |a| == |b|
  {
  }

  // ---- parts of 15 units ---------------------------------------------------------------

  function Ceil15(n: nat): (k: nat)
    ensures n <= 15 * k < n + 15
  {
    (n + 14) / 15
  }

  /** `calc_dir_entry_set_len`. */
  function SetLength(units: nat): nat { 2 + Ceil15(units) }

  /** Part `k` of a name, filled up with zeros. */
  function Part(name: seq<u16>, k: nat): (u: NameUnits)
    ensures forall i :: 0 <= i < 15 ==> u[i] == if 15 * k + i < |name| then name[15 * k + i] else 0
  {
    seq(15, i requires 0 <= i < 15 => if 15 * k + i < |name| then name[15 * k + i] else 0)
  }

  /** `Utf16Chunks`: what is left of a name. */
  class Utf16Chunks {
    var rest: seq<u16>

    constructor (name: seq<u16>)
      ensures rest == name
    {
      rest := name;
    }

    /** Takes up to 15 units and fills the chunk up with zeros; nothing is left at the end. */
    method NextChunk() returns (chunk: NameUnits, len: Option<nat>)
      modifies this
      ensures old(rest) == [] <==> len == None
      ensures len.Some? ==> len.value == (if |old(rest)| < 15 then |old(rest)| else 15)
                            && chunk == Part(old(rest), 0) && rest == old(rest)[len.value..]
      ensures len.None? ==> rest == []
    {
      var taken := [];
      while |taken| < 15 && rest != []
        invariant |taken| <= 15 && |taken| <= |old(rest)|
        invariant taken == old(rest)[..|taken|] && rest == old(rest)[|taken|..]
        decreases 15 - |taken|
      {
        taken := taken + [rest[0]];
        rest := rest[1..];
      }
      chunk := seq(15, i requires 0 <= i < 15 => if i < |taken| then taken[i] else 0);
      len := if taken == [] then None else Some(|taken|);
    }
  }

  lemma PartOfRest(name: seq<u16>, k: nat)
    requires 15 * k <= |name|
    ensures Part(name[15 * k..], 0) == Part(name, k)
  {
  }
}
