/** Timestamps and their encoding in directory entries (src/timestamp.rs; sections 7.4.8 to 7.4.10 of
    the exFAT specification). */
module Timestamp {
  import opened Results

  const MIN_TIMESTAMP: bv32 := 0x0021_0000
  const MIN_YEAR: bv16 := 1980
  const MAX_YEAR: bv16 := 2107
  const UTC_OFFSET_VALID: bv8 := 0x80

  /** An offset from UTC in quarters of an hour, as the bits of an `i8`. */
  type i8 = bv8

  predicate AtLeast(x: i8, y: i8) { (x ^ 0x80) >= (y ^ 0x80) }

  datatype Timestamp = Timestamp(
    year: bv16,
    month: bv8,
    day: bv8,
    hour: bv8,
    minute: bv8,
    second: bv8,
    centis: bv8,
    utcOffset: Option<i8>)
  {
    predicate IsValid() {
      && MIN_YEAR <= year <= MAX_YEAR
      && 1 <= day <= DaysInMonth(year, month)
      && hour <= 23 && minute <= 59 && second <= 59 && centis <= 99
      && (utcOffset.Some? ==> AtLeast(utcOffset.value, -48) && AtLeast(56, utcOffset.value))
    }
  }

  predicate IsLeapYear(year: bv16) { year % 4 == 0 && (year % 100 != 0 || year % 400 == 0) }

  function DaysInMonth(year: bv16, month: bv8): bv8 {
    match month
    case 1 | 3 | 5 | 7 | 8 | 10 | 12 => 31
    case 4 | 6 | 9 | 11 => 30
    case 2 => if IsLeapYear(year) then 29 else 28
    case _ => 0
  }

  datatype EncodedTimestamp = EncodedTimestamp(packed: bv32, increment10ms: bv8, utcOffset: bv8)

  const EPOCH := EncodedTimestamp(MIN_TIMESTAMP, 0, 0)

  function Increment(t: Timestamp): bv8 { (t.second & 1) * 100 + t.centis }

  function PackOffset(offset: Option<i8>): bv8 {
    if offset.Some? then UTC_OFFSET_VALID | (offset.value & 0x7F) else 0
  }

  function Pack(t: Timestamp): bv32 {
    ((t.year - MIN_YEAR) as bv32 << 25) | (t.month as bv32 << 21) | (t.day as bv32 << 16)
    | (t.hour as bv32 << 11) | (t.minute as bv32 << 5) | (t.second as bv32 >> 1)
  }

  /** The places of the fields in the packed form (section 7.4.8 of the exFAT specification). */
  lemma PackPlaces(t: Timestamp)
    requires t.IsValid()
    ensures Pack(t) == (t.year - MIN_YEAR) as bv32 * 0x200_0000 + t.month as bv32 * 0x20_0000 + t.day as bv32 * 0x1_0000
                       + t.hour as bv32 * 0x800 + t.minute as bv32 * 0x20 + t.second as bv32 / 2
    ensures Increment(t) == t.second % 2 * 100 + t.centis
    ensures PackOffset(t.utcOffset) == if t.utcOffset.Some? then 0x80 + t.utcOffset.value % 0x80 else 0
  {
    assert t.month <= 12 && t.day <= 31;
  }

  /** In builds without debug assertions an invalid timestamp is encoded as the epoch. */
  function Encode(t: Timestamp): EncodedTimestamp {
    if !t.IsValid() then EPOCH
    else
      EncodedTimestamp(Pack(t), Increment(t), PackOffset(t.utcOffset))
  }

  /** Arithmetic shift right by one of an `i8`. */
  function ShiftRight(x: i8): i8 { (x >> 1) | (x & 0x80) }

  function YearOf(packed: bv32): bv16 { (packed >> 25) as bv16 + MIN_YEAR }

  function MonthOf(packed: bv32): bv8 { ((packed >> 21) & 0x0F) as bv8 }

  function DayOf(packed: bv32): bv8 { ((packed >> 16) & 0x1F) as bv8 }

  function HourOf(packed: bv32): bv8 { ((packed >> 11) & 0x1F) as bv8 }

  function MinuteOf(packed: bv32): bv8 { ((packed >> 5) & 0x3F) as bv8 }

  function ExtraSeconds(increment: bv8): bv8 { if increment >= 200 then 2 else if increment >= 100 then 1 else 0 }

  function SecondOf(packed: bv32, increment: bv8): bv8 { (((packed & 0x1F) as bv8) << 1) + ExtraSeconds(increment) }

  function CentisOf(increment: bv8): bv8 { increment - ExtraSeconds(increment) * 100 }

  function OffsetOf(utcOffset: bv8): Option<i8> {
    if utcOffset & UTC_OFFSET_VALID != 0 then Some(ShiftRight(utcOffset << 1)) else None
  }

  function Decode(e: EncodedTimestamp): Timestamp {
    Timestamp(YearOf(e.packed), MonthOf(e.packed), DayOf(e.packed), HourOf(e.packed), MinuteOf(e.packed),
              SecondOf(e.packed, e.increment10ms), CentisOf(e.increment10ms), OffsetOf(e.utcOffset))
  }

  /** And where they are read from, whatever was stored. */
  lemma FieldPlaces(packed: bv32)
    ensures YearOf(packed) == (packed / 0x200_0000) as bv16 + 1980 && MonthOf(packed) as bv32 == packed / 0x20_0000 % 16
    ensures DayOf(packed) as bv32 == packed / 0x1_0000 % 32 && HourOf(packed) as bv32 == packed / 0x800 % 32
    ensures MinuteOf(packed) as bv32 == packed / 0x20 % 64
  {
  }

  /** Seconds are counted in twos; the odd one, if any, is in the 10 ms field. */
  lemma SecondPlaces(packed: bv32, increment: bv8)
    ensures SecondOf(packed, increment) as bv32 == packed % 32 * 2 + increment as bv32 / 100
    ensures CentisOf(increment) == increment % 100
  {
    TensOf(increment);
    assert ((packed & 0x1F) as bv8) as bv32 == packed % 32;
  }

  lemma TensOf(increment: bv8)
    ensures ExtraSeconds(increment) == increment / 100
    ensures CentisOf(increment) == increment - increment / 100 * 100 == increment % 100
  {
  }

  /** The highest bit says that there is an offset, the others are the offset as a signed number of seven bits. */
  lemma OffsetPlaces(b: bv8)
    ensures OffsetOf(b) == if b < 0x80 then None else if b < 0xC0 then Some(b - 0x80) else Some(b)
  {
  }

  /** The calendar of the years that can be stored. */
  lemma MonthLengths(year: bv16, month: bv8)
    requires MIN_YEAR <= year <= MAX_YEAR && 1 <= month <= 12
    ensures DaysInMonth(year, month) ==
              if month == 2 then (if year % 4 == 0 && year != 2100 then 29 else 28)
              else if month == 4 || month == 6 || month == 9 || month == 11 then 30 else 31
  {
  }

  lemma EpochIsValid()
    ensures Decode(EPOCH) == Timestamp(1980, 1, 1, 0, 0, 0, 0, None)
    ensures Decode(EPOCH).IsValid() && Encode(Decode(EPOCH)) == EPOCH
  {
  }

  lemma DateAndTime(t: Timestamp)
    requires t.IsValid()
    ensures YearOf(Pack(t)) == t.year && MonthOf(Pack(t)) == t.month && DayOf(Pack(t)) == t.day
    ensures HourOf(Pack(t)) == t.hour && MinuteOf(Pack(t)) == t.minute
  {
    assert t.month <= 12 && t.day <= 31;
  }

  /** The packed time has only even seconds; the odd one is carried by the 10 ms field. */
  lemma Seconds(t: Timestamp)
    requires t.IsValid()
    ensures SecondOf(Pack(t), Increment(t)) == t.second && CentisOf(Increment(t)) == t.centis
  {
    hide Pack, DaysInMonth, ExtraSeconds, AtLeast, SecondOf, CentisOf, Increment;
    EvenSecond(t);
    SecondCarry(t);
    SecondIs(Pack(t), Increment(t), t.second);
  }

  lemma SecondIs(packed: bv32, increment: bv8, second: bv8)
    requires ((packed & 0x1F) as bv8) << 1 == second & 0xFE && (second & 0xFE) + ExtraSeconds(increment) == second
    ensures SecondOf(packed, increment) == second
  {
    hide ExtraSeconds;
  }

  lemma EvenSecond(t: Timestamp)
    requires t.IsValid()
    ensures ((Pack(t) & 0x1F) as bv8) << 1 == t.second & 0xFE
  {
  }

  lemma SecondCarry(t: Timestamp)
    requires t.second <= 59 && t.centis <= 99
    ensures (t.second & 0xFE) + ExtraSeconds(Increment(t)) == t.second && CentisOf(Increment(t)) == t.centis
  {
  }

  /** A signed offset survives being cut to seven bits. */
  lemma Offset(x: Option<i8>)
    requires x.Some? ==> AtLeast(x.value, -48) && AtLeast(56, x.value)
    ensures OffsetOf(PackOffset(x)) == x
  {
  }

  /** Exactly the valid timestamps survive encoding and decoding, odd seconds and negative offsets
      included. */
  lemma RoundTrip(t: Timestamp)
    ensures Decode(Encode(t)) == t <==> t.IsValid()
  {
    hide Pack, Increment, PackOffset, YearOf, MonthOf, DayOf, HourOf, MinuteOf, SecondOf, CentisOf, OffsetOf,
         DaysInMonth, AtLeast;
    EpochIsValid();
    if t.IsValid() {
      DateAndTime(t);
      Seconds(t);
      Offset(t.utcOffset);
    }
  }

  lemma IncrementAgain(packed: bv32, increment: bv8)
    ensures (SecondOf(packed, increment) & 1) * 100 + CentisOf(increment) == increment <==> increment < 200
  {
  }

  lemma PackedAgain(e: EncodedTimestamp)
    requires e.increment10ms < 200
    ensures Pack(Decode(e)) == e.packed
  {
  }

  lemma OffsetAgain(b: bv8)
    ensures PackOffset(OffsetOf(b)) == b <==> b == 0 || b >= UTC_OFFSET_VALID
  {
  }

  /** Exactly the stored timestamps with at most 199 increments, and an offset that is marked valid
      or zero, are written back as they were read. */
  lemma Rewritten(e: EncodedTimestamp)
    requires Decode(e).IsValid()
    ensures Encode(Decode(e)) == e <==> e.increment10ms < 200 && (e.utcOffset == 0 || e.utcOffset >= UTC_OFFSET_VALID)
  {
    hide Pack, PackOffset, OffsetOf, SecondOf, CentisOf, YearOf, MonthOf, DayOf, HourOf, MinuteOf, DaysInMonth, AtLeast;
    IncrementAgain(e.packed, e.increment10ms);
    OffsetAgain(e.utcOffset);
    if e.increment10ms < 200 {
      PackedAgain(e);
    }
  }
}
