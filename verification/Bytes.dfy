/** Bytes, little-endian integers, bits of a byte, and overwriting a slice of a sequence. */
module Bytes {

  type byte = x: int | 0 <= x < 256
  type Block = seq<byte>

  const TWO16: nat := 0x1_0000
  const TWO32: nat := 0x1_0000_0000
  const TWO64: nat := 0x1_0000_0000_0000_0000

  function LE16(v: nat): (b: seq<byte>)
    requires v < TWO16
    ensures |b| == 2
  {
    [v % 256, v / 256]
  }

  function LE32(v: nat): (b: seq<byte>)
    requires v < TWO32
    ensures |b| == 4
  {
    LE16(v % TWO16) + LE16(v / TWO16)
  }

  function LE64(v: nat): (b: seq<byte>)
    requires v < TWO64
    ensures |b| == 8
  {
    LE32(v % TWO32) + LE32(v / TWO32)
  }

  function FromLE16(b: seq<byte>): (v: nat)
    requires |b| == 2
    ensures v < TWO16
  {
    (b[0] as int) + 256 * (b[1] as int)
  }

  function FromLE32(b: seq<byte>): (v: nat)
    requires |b| == 4
    ensures v < TWO32
  {
    FromLE16(b[..2]) + TWO16 * FromLE16(b[2..])
  }

  function FromLE64(b: seq<byte>): (v: nat)
    requires |b| == 8
    ensures v < TWO64
  {
    FromLE32(b[..4]) + TWO32 * FromLE32(b[4..])
  }

  /** Decoding undoes encoding, for each of the three widths. */
  lemma LE32RoundTrip(v: nat)
    requires v < TWO32
    ensures FromLE32(LE32(v)) == v
  {
    assert LE32(v)[..2] == LE16(v % TWO16);
    assert LE32(v)[2..] == LE16(v / TWO16);
  }

  lemma LE64RoundTrip(v: nat)
    requires v < TWO64
    ensures FromLE64(LE64(v)) == v
  {
    LE32RoundTrip(v % TWO32);
    LE32RoundTrip(v / TWO32);
    assert LE64(v)[..4] == LE32(v % TWO32);
    assert LE64(v)[4..] == LE32(v / TWO32);
  }

  // ---- integers by their bytes ------------------------------------------------

  /** The bytes of `b` from `i` on are those of `v`, least significant first. */
  ghost predicate Int16At(b: seq<byte>, i: nat, v: nat) {
    i + 2 <= |b| && v < TWO16 && b[i] == v % 0x100 && b[i + 1] == v / 0x100
  }

  ghost predicate Int32At(b: seq<byte>, i: nat, v: nat) {
    && i + 4 <= |b| && v < TWO32
    && b[i] == v % 0x100 && b[i + 1] == v / 0x100 % 0x100
    && b[i + 2] == v / 0x1_0000 % 0x100 && b[i + 3] == v / 0x100_0000
  }

  ghost predicate Int64At(b: seq<byte>, i: nat, v: nat) {
    i + 8 <= |b| && v < TWO64 && Int32At(b, i, v % TWO32) && Int32At(b, i + 4, v / TWO32)
  }

  lemma LE32Bytes(v: nat)
    requires v < TWO32
    ensures Int32At(LE32(v), 0, v)
  {
    var h := v / TWO16;
    assert v % TWO16 % 0x100 == v % 0x100 && v % TWO16 / 0x100 == v / 0x100 % 0x100;
    assert h == v / 0x1_0000 && h / 0x100 == v / 0x100_0000;
  }

  /** What the encoders store. */
  lemma Stored16(b: seq<byte>, i: nat, v: nat)
    requires i + 2 <= |b| && v < TWO16 && b[i..i + 2] == LE16(v)
    ensures Int16At(b, i, v)
  {
    assert b[i] == b[i..i + 2][0] && b[i + 1] == b[i..i + 2][1];
  }

  lemma Stored32(b: seq<byte>, i: nat, v: nat)
    requires i + 4 <= |b| && v < TWO32 && b[i..i + 4] == LE32(v)
    ensures Int32At(b, i, v)
  {
    hide LE32;
    LE32Bytes(v);
    var x := b[i..i + 4];
    assert b[i] == x[0] && b[i + 1] == x[1] && b[i + 2] == x[2] && b[i + 3] == x[3];
  }

  lemma Stored64(b: seq<byte>, i: nat, v: nat)
    requires i + 8 <= |b| && v < TWO64 && b[i..i + 8] == LE64(v)
    ensures Int64At(b, i, v)
  {
    hide LE32, Int32At;
    assert b[i..i + 4] == LE64(v)[..4] && b[i + 4..i + 8] == LE64(v)[4..];
    Stored32(b, i, v % TWO32);
    Stored32(b, i + 4, v / TWO32);
  }

  /** What the decoders read. */
  lemma Read16(b: seq<byte>, i: nat)
    requires i + 2 <= |b|
    ensures Int16At(b, i, FromLE16(b[i..i + 2]))
  {
  }

  lemma Value32(b: seq<byte>)
    requires |b| == 4
    ensures FromLE32(b) == b[0] as int + 0x100 * b[1] as int + 0x1_0000 * b[2] as int + 0x100_0000 * b[3] as int
    ensures Int32At(b, 0, FromLE32(b))
  {
  }

  lemma Read32(b: seq<byte>, i: nat)
    requires i + 4 <= |b|
    ensures Int32At(b, i, FromLE32(b[i..i + 4]))
  {
    hide FromLE32;
    var x := b[i..i + 4];
    Value32(x);
    assert b[i] == x[0] && b[i + 1] == x[1] && b[i + 2] == x[2] && b[i + 3] == x[3];
  }

  lemma Read64(b: seq<byte>, i: nat)
    requires i + 8 <= |b|
    ensures Int64At(b, i, FromLE64(b[i..i + 8]))
  {
    hide FromLE32, Int32At;
    var x := b[i..i + 8];
    assert x[..4] == b[i..i + 4] && x[4..] == b[i + 4..i + 8];
    Read32(b, i);
    Read32(b, i + 4);
    var lo, hi := FromLE32(b[i..i + 4]), FromLE32(b[i + 4..i + 8]);
    assert FromLE64(x) == lo + TWO32 * hi && FromLE64(x) % TWO32 == lo && FromLE64(x) / TWO32 == hi;
  }

  // ---- bits of a byte -------------------------------------------------------

  /** Bit `k` of `v`, counted from the lowest-order bit. */
  predicate BitOf(v: nat, k: nat) {
    if k == 0 then v % 2 == 1 else BitOf(v / 2, k - 1)
  }

  /** `v | (1 << k)` when on, `v & !(1 << k)` otherwise. */
  function WithBit(v: nat, k: nat, on: bool): (r: nat) {
    if k == 0 then v - v % 2 + (if on then 1 else 0) else v % 2 + 2 * WithBit(v / 2, k - 1, on)
  }

  lemma {:induction false} WithBitAt(v: nat, k: nat, on: bool, j: nat)
    ensures BitOf(WithBit(v, k, on), j) == if j == k then on else BitOf(v, j)
  {
    var r := WithBit(v, k, on);
    if k == 0 {
      assert r / 2 == v / 2;
    } else {
      assert r / 2 == WithBit(v / 2, k - 1, on) && r % 2 == v % 2;
      if j > 0 { WithBitAt(v / 2, k - 1, on, j - 1); }
    }
  }

  function Pow2(w: nat): (p: nat)
    ensures p >= 1
  {
    if w == 0 then 1 else 2 * Pow2(w - 1)
  }

  lemma {:induction false} BitQuotient(v: nat, k: nat)
    ensures BitOf(v, k) <==> v / Pow2(k) % 2 == 1
  {
    hide Pow2;
    PowZero();
    if k > 0 {
      Pow2Half(k);
      BitQuotient(v / 2, k - 1);
      HalfQuotient(v, Pow2(k - 1));
    }
  }

  lemma PowZero()
    ensures Pow2(0) == 1
  {
  }

  lemma HalfQuotient(v: nat, p: nat)
    requires p > 0
    ensures v / (2 * p) == v / 2 / p
  {
    DivModFacts(v / 2, p);
    DivModUnique(v, 2 * p, v / 2 / p, v / 2 % p * 2 + v % 2);
  }

  lemma {:induction false} WithBitBound(v: nat, k: nat, on: bool, w: nat)
    requires v < Pow2(w) && k < w
    ensures WithBit(v, k, on) < Pow2(w)
  {
    hide Pow2;
    Pow2Half(w);
    if k > 0 {
      WithBitBound(v / 2, k - 1, on, w - 1);
    }
  }

  lemma Pow2Half(w: nat)
    requires w > 0
    ensures Pow2(w) == 2 * Pow2(w - 1)
  {
  }

  /** Setting or clearing a bit keeps a byte a byte. */
  function WithBit8(b: byte, k: nat, on: bool): (r: byte)
    requires k < 8
    ensures forall j :: 0 <= j < 8 ==> BitOf(r, j) == if j == k then on else BitOf(b, j)
  {
    assert Pow2(8) == 256 by { assert Pow2(4) == 16; }
    WithBitBound(b, k, on, 8);
    assert forall j :: 0 <= j < 8 ==> BitOf(WithBit(b, k, on), j) == if j == k then on else BitOf(b, j) by {
      forall j | 0 <= j < 8 ensures BitOf(WithBit(b, k, on), j) == if j == k then on else BitOf(b, j) {
        WithBitAt(b, k, on, j);
      }
    }
    WithBit(b, k, on)
  }

  /** The `w` lowest bits of `v` are all set. */
  predicate AllSet(v: nat, w: nat) {
    w == 0 || (v % 2 == 1 && AllSet(v / 2, w - 1))
  }

  lemma {:induction false} AllSetBits(v: nat, w: nat, k: nat)
    requires AllSet(v, w) && k < w
    ensures BitOf(v, k)
  {
    if k > 0 { AllSetBits(v / 2, w - 1, k - 1); }
  }

  lemma {:induction false} AllSetIsMax(v: nat, w: nat)
    requires v == Pow2(w) - 1
    ensures AllSet(v, w)
  {
    if w > 0 { AllSetIsMax(v / 2, w - 1); }
  }

  /** A byte of 0xFF has every bit set. */
  lemma FullByte(k: nat)
    requires k < 8
    ensures BitOf(255, k)
  {
    assert Pow2(8) == 256 by { assert Pow2(4) == 16; }
    AllSetIsMax(255, 8);
    AllSetBits(255, 8, k);
  }

  // ---- overwriting a slice --------------------------------------------------

  function Splice<T>(s: seq<T>, at: nat, x: seq<T>): (r: seq<T>)
    requires at + |x| <= |s|
    ensures |r| == |s|
    ensures forall i :: 0 <= i < |s| ==> r[i] == if at <= i < at + |x| then x[i - at] else s[i]
  {
    s[..at] + x + s[at + |x|..]
  }

  /** Two adjacent writes are one write. */
  lemma SpliceTwice<T>(s: seq<T>, at: nat, x: seq<T>, y: seq<T>)
    requires at + |x| + |y| <= |s|
    ensures Splice(Splice(s, at, x), at + |x|, y) == Splice(s, at, x + y)
  {
  }

  // ---- division by a variable -----------------------------------------------

  lemma DivModUnique(a: int, b: int, q: int, r: int)
    requires 0 < b && 0 <= r < b && a == q * b + r
    ensures a / b == q && a % b == r
  {
    var q' := a / b;
    var k := q - q';
    assert a == q' * b + a % b;
    assert k * b == a % b - r;
    if k >= 1 { MulMono(1, k, b); }
  }

  lemma DivModFacts(a: nat, b: nat)
    requires 0 < b
    ensures a == (a / b) * b + a % b
    ensures 0 <= a % b < b
    ensures 0 <= a / b
  {
  }

  lemma DivLess(a: nat, b: nat, n: nat)
    requires 0 < b && a < n * b
    ensures 0 <= a / b < n
  {
    DivModFacts(a, b);
    if a / b >= n { MulMono(n, a / b, b); }
  }

  lemma MulMono(a: nat, b: nat, c: nat)
    requires a <= b
    ensures a * c <= b * c
  {
  }
}
