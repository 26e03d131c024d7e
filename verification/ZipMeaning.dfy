/**
 * The fields of the three records one by one, at the offsets and with the values of
 * APPNOTE.TXT sections 4.3.7, 4.3.12 and 4.3.16, and the time stamp of section 4.4.6.
 */
module ZipMeaning {
  import opened Utf8
  import opened Zip
  import Division

  lemma LocalStart(a: seq<Byte>, at: nat, st: Stamp, rest: seq<Byte>) returns (next: nat)
    requires Holds(a, at, Word4(LOCAL_SIGNATURE) + (Word2(20) + Stamped(st, rest)))
    ensures next == at + 14 <= |a| && Holds(a, next, rest)
    ensures At32(a, at) == 0x04034b50 && At16(a, at + 4) == 20 && At16(a, at + 6) == 0x0800 && At16(a, at + 8) == 0
    ensures At16(a, at + 10) == st.time % 0x10000 && At16(a, at + 12) == st.day % 0x10000
  {
    var stamped := Stamped(st, rest);
    next := Field4(a, at, LOCAL_SIGNATURE, Word2(20) + stamped);
    next := Field2(a, next, 20, stamped);
    next := StampedFields(a, next, st, rest);
  }

  lemma CentralStart(a: seq<Byte>, at: nat, st: Stamp, rest: seq<Byte>) returns (next: nat)
    requires Holds(a, at, Word4(CENTRAL_SIGNATURE) + (Word2(20) + (Word2(20) + Stamped(st, rest))))
    ensures next == at + 16 <= |a| && Holds(a, next, rest)
    ensures At32(a, at) == 0x02014b50 && At16(a, at + 4) == 20 && At16(a, at + 6) == 20
    ensures At16(a, at + 8) == 0x0800 && At16(a, at + 10) == 0
    ensures At16(a, at + 12) == st.time % 0x10000 && At16(a, at + 14) == st.day % 0x10000
  {
    var stamped := Stamped(st, rest);
    next := Field4(a, at, CENTRAL_SIGNATURE, Word2(20) + (Word2(20) + stamped));
    next := Field2(a, next, 20, Word2(20) + stamped);
    next := Field2(a, next, 20, stamped);
    next := StampedFields(a, next, st, rest);
  }

  /** A local header: needs version 2.0, names in UTF-8, stored, stamped, checked and sized, with no extra field. */
  lemma LocalHeaderIs(a: seq<Byte>, at: nat, e: Entry, st: Stamp)
    requires Holds(a, at, Local(e, st)) && Fits(e)
    ensures at + 30 + |Encode(e.name)| + |e.data| <= |a|
    ensures At32(a, at) == 0x04034b50 && At16(a, at + 4) == 20 && At16(a, at + 6) == 0x0800 && At16(a, at + 8) == 0
    ensures At16(a, at + 10) == st.time % 0x10000 && At16(a, at + 12) == st.day % 0x10000
    ensures At32(a, at + 14) == CrcOf(e.data) && At32(a, at + 18) == |e.data| == At32(a, at + 22)
    ensures At16(a, at + 26) == |Encode(e.name)| && At16(a, at + 28) == 0
    ensures Holds(a, at + 30, Encode(e.name)) && Holds(a, at + 30 + |Encode(e.name)|, e.data)
  {
    var crc, size, n := CrcOf(e.data), |e.data|, |Encode(e.name)|;
    var rest := Encode(e.name) + e.data;
    CrcFits(e.data);
    Small(crc);
    Small(size);
    Small(n);
    var p := LocalStart(a, at, st, Described(crc, size, n, rest));
    p := DescribedFields(a, p, crc, size, n, rest);
    HoldsParts(a, p, Encode(e.name), e.data);
  }

  /** A central record: the same, made by version 2.0, with no comment, on the first disk, of no attributes. */
  lemma CentralRecordIs(a: seq<Byte>, at: nat, e: Entry, st: Stamp, offset: nat)
    requires Holds(a, at, Central(e, st, offset)) && Fits(e) && offset < 0x100000000
    ensures at + 46 + |Encode(e.name)| <= |a|
    ensures At32(a, at) == 0x02014b50 && At16(a, at + 4) == 20 && At16(a, at + 6) == 20
    ensures At16(a, at + 8) == 0x0800 && At16(a, at + 10) == 0
    ensures At16(a, at + 12) == st.time % 0x10000 && At16(a, at + 14) == st.day % 0x10000
    ensures At32(a, at + 16) == CrcOf(e.data) && At32(a, at + 20) == |e.data| == At32(a, at + 24)
    ensures At16(a, at + 28) == |Encode(e.name)| && At16(a, at + 30) == 0 && At16(a, at + 32) == 0
    ensures At16(a, at + 34) == 0 && At16(a, at + 36) == 0 && At32(a, at + 38) == 0 && At32(a, at + 42) == offset
    ensures Holds(a, at + 46, Encode(e.name))
  {
    var crc, size, n := CrcOf(e.data), |e.data|, |Encode(e.name)|;
    var placed := Placed(offset, Encode(e.name));
    CrcFits(e.data);
    Small(crc);
    Small(size);
    Small(n);
    Small(offset);
    var p := CentralStart(a, at, st, Described(crc, size, n, placed));
    p := DescribedFields(a, p, crc, size, n, placed);
    p := PlacedFields(a, p, offset, Encode(e.name));
  }

  /** The end record: one disk, both counts, where the directory is and how long, and no comment. */
  lemma EndRecordIs(a: seq<Byte>, e: nat, count: nat, directory: nat, offset: nat)
    requires Holds(a, e, EndRecord(count, directory, offset))
    requires count < 0x10000 && directory < 0x100000000 && offset < 0x100000000
    ensures e + 22 <= |a| && At32(a, e) == 0x06054b50 && At16(a, e + 4) == 0 && At16(a, e + 6) == 0
    ensures At16(a, e + 8) == count == At16(a, e + 10) && At32(a, e + 12) == directory && At32(a, e + 16) == offset
    ensures At16(a, e + 20) == 0
  {
    Small(count);
    Small(directory);
    Small(offset);
    EndFields(a, e, count, directory, offset);
    var counts := Word2(count) + (Word2(count) + (Word4(directory) + (Word4(offset) + Word2(0))));
    var p := Field4(a, e, END_SIGNATURE, Word2(0) + (Word2(0) + counts));
    p := Field2(a, p, 0, Word2(0) + counts);
    p := Field2(a, p, 0, counts);
  }

  // ---- The time stamp ----------------------------------------------------------------

  /** The parts of an instant in UTC, months counted from one. */
  datatype Clock = Clock(year: int, month: nat, day: nat, hour: nat, minute: nat, second: nat)

  predicate OnTheClock(c: Clock) {
    1 <= c.month <= 12 && 1 <= c.day <= 31 && c.hour < 24 && c.minute < 60 && c.second < 60
  }

  /** The fields do not overlap, so joining them bit by bit is adding; a field of 16 bits keeps the lowest. */
  function StampOf(c: Clock): Stamp {
    Stamp((c.hour * 0x800 + c.minute * 0x20 + c.second / 2) % 0x10000,
          ((c.year - 1980) * 0x200 + c.month * 0x20 + c.day) % 0x10000)
  }

  function ReadStamp(st: Stamp): Clock {
    Clock(1980 + st.day / 0x200, st.day / 0x20 % 0x10, st.day % 0x20, st.time / 0x800, st.time / 0x20 % 0x40,
        st.time % 0x20 * 2)
  }

  lemma TimeReads(hour: nat, minute: nat, pair: nat)
    requires hour < 24 && minute < 60 && pair < 30
    ensures var v := hour * 0x800 + minute * 0x20 + pair;
      v < 0x10000 && v / 0x800 == hour && v / 0x20 % 0x40 == minute && v % 0x20 == pair
  {
    Division.QuotientOf(0x800, hour, minute * 0x20 + pair);
    Division.QuotientOf(0x20, hour * 0x40 + minute, pair);
    Division.QuotientOf(0x40, hour, minute);
  }

  lemma DayReads(year: nat, month: nat, day: nat)
    requires year < 0x80 && month < 0x10 && day < 0x20
    ensures var v := year * 0x200 + month * 0x20 + day;
      v < 0x10000 && v / 0x200 == year && v / 0x20 % 0x10 == month && v % 0x20 == day
  {
    Division.QuotientOf(0x200, year, month * 0x20 + day);
    Division.QuotientOf(0x20, year * 0x10 + month, day);
    Division.QuotientOf(0x10, year, month);
  }

  lemma DayWraps(year: int, low: nat)
    requires low < 0x200
    ensures (year * 0x200 + low) % 0x10000 == year % 0x80 * 0x200 + low
  {
    Division.QuotientOf(0x10000, 0, year % 0x80 * 0x200 + low);
    var whole := year / 0x80;
    assert year == 0x80 * whole + year % 0x80;
    assert year * 0x200 + low == 0x10000 * whole + (year % 0x80 * 0x200 + low);
  }

  /** The stamp is read as the very day and time, to two seconds, exactly for the years it can tell. */
  lemma StampReads(c: Clock)
    requires OnTheClock(c)
    ensures ReadStamp(StampOf(c)) == c.(second := c.second / 2 * 2) <==> 1980 <= c.year <= 2107
  {
    TimeReads(c.hour, c.minute, c.second / 2);
    var year := (c.year - 1980) % 0x80;
    DayReads(year, c.month, c.day);
    DayWraps(c.year - 1980, c.month * 0x20 + c.day);
    assert ReadStamp(StampOf(c)) == Clock(1980 + year, c.month, c.day, c.hour, c.minute, c.second / 2 * 2);
  }
}
