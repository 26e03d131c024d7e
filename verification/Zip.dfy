/**
 * A ZIP archive with every entry stored: the layout of APPNOTE.TXT sections 4.3.7, 4.3.12
 * and 4.3.16, a reader that starts from the end record, and that it finds what was written.
 */
module Zip {
  import opened Shared
  import opened Utf8
  import Crc

  datatype Entry = Entry(name: string, data: seq<Byte>)
  datatype Stamp = Stamp(time: nat, day: nat)

  const LOCAL_SIGNATURE: nat := 0x04034b50
  const CENTRAL_SIGNATURE: nat := 0x02014b50
  const END_SIGNATURE: nat := 0x06054b50

  /** Little-endian digits; a field keeps as many as it is wide. */
  function Digit0(v: nat): Byte { v % 0x100 }
  function Digit1(v: nat): Byte { v / 0x100 % 0x100 }
  function Digit2(v: nat): Byte { v / 0x10000 % 0x100 }
  function Digit3(v: nat): Byte { v / 0x1000000 % 0x100 }

  function Words(data: seq<Byte>): seq<bv8> {
    seq(|data|, i requires 0 <= i < |data| => data[i] as bv8)
  }

  function CrcOf(data: seq<Byte>): nat {
    Crc.Checksum(Words(data)) as int
  }

  function Word2(v: nat): (b: seq<Byte>)
    ensures |b| == 2
  {
    [Digit0(v), Digit1(v)]
  }

  function Word4(v: nat): (b: seq<Byte>)
    ensures |b| == 4
  {
    [Digit0(v), Digit1(v), Digit2(v), Digit3(v)]
  }

  /** Flags (names are UTF-8), method (stored), time and day. */
  function Stamped(st: Stamp, rest: seq<Byte>): seq<Byte> {
    Word2(0x0800) + (Word2(0) + (Word2(st.time) + (Word2(st.day) + rest)))
  }

  /** Checksum, both sizes, the name's length and no extra field. */
  function Described(crc: nat, size: nat, nameLength: nat, rest: seq<Byte>): seq<Byte> {
    Word4(crc) + (Word4(size) + (Word4(size) + (Word2(nameLength) + (Word2(0) + rest))))
  }

  /** No comment, disk and attributes zero, and where the local header is. */
  function Placed(offset: nat, rest: seq<Byte>): seq<Byte> {
    Word2(0) + (Word2(0) + (Word2(0) + (Word4(0) + (Word4(offset) + rest))))
  }

  function LocalHeader(st: Stamp, crc: nat, size: nat, nameLength: nat, rest: seq<Byte>): seq<Byte> {
    Word4(LOCAL_SIGNATURE) + (Word2(20) + Stamped(st, Described(crc, size, nameLength, rest)))
  }

  function CentralHeader(st: Stamp, crc: nat, size: nat, nameLength: nat, offset: nat, rest: seq<Byte>): seq<Byte> {
    Word4(CENTRAL_SIGNATURE) + (Word2(20) + (Word2(20)
          + Stamped(st, Described(crc, size, nameLength, Placed(offset, rest)))))
  }

  function EndRecord(count: nat, directory: nat, offset: nat): seq<Byte> {
    Word4(END_SIGNATURE) + (Word2(0) + (Word2(0) + (Word2(count)
            + (Word2(count) + (Word4(directory) + (Word4(offset) + Word2(0)))))))
  }

  function Local(e: Entry, st: Stamp): seq<Byte> {
    LocalHeader(st, CrcOf(e.data), |e.data|, |Encode(e.name)|, Encode(e.name) + e.data)
  }

  function Central(e: Entry, st: Stamp, offset: nat): seq<Byte> {
    CentralHeader(st, CrcOf(e.data), |e.data|, |Encode(e.name)|, offset, Encode(e.name))
  }

  /** All the parts in order, as one run of bytes. */
  function Concat(parts: seq<seq<Byte>>): seq<Byte> {
    if parts == [] then [] else Concat(parts[..|parts| - 1]) + parts[|parts| - 1]
  }

  /** Where part `k` starts. */
  function Offset(parts: seq<seq<Byte>>, k: nat): nat
    requires k <= |parts|
  {
    |Concat(parts[..k])|
  }

  function Locals(es: seq<Entry>, st: Stamp): (parts: seq<seq<Byte>>)
    ensures |parts| == |es|
  {
    seq(|es|, k requires 0 <= k < |es| => Local(es[k], st))
  }

  /** Each central record carries the offset at which its local header starts. */
  function Centrals(es: seq<Entry>, st: Stamp): (parts: seq<seq<Byte>>)
    ensures |parts| == |es|
  {
    seq(|es|, k requires 0 <= k < |es| => Central(es[k], st, Offset(Locals(es, st), k)))
  }

  function Assemble(locals: seq<seq<Byte>>, centrals: seq<seq<Byte>>, end: seq<Byte>): seq<Byte> {
    Concat(locals) + Concat(centrals) + end
  }

  function Archive(es: seq<Entry>, st: Stamp): seq<Byte> {
    var ls, cs := Locals(es, st), Centrals(es, st);
    Assemble(ls, cs, EndRecord(|es|, |Concat(cs)|, |Concat(ls)|))
  }

  // ---- Reading ----------------------------------------------------------------------

  function At16(a: seq<Byte>, i: nat): nat
    requires i + 2 <= |a|
  {
    a[i] as int + 0x100 * a[i + 1] as int
  }

  function At32(a: seq<Byte>, i: nat): nat
    requires i + 4 <= |a|
  {
    At16(a, i) + 0x10000 * At16(a, i + 2)
  }

  datatype Record = Record(name: seq<Byte>, crc: nat, size: nat, offset: nat, next: nat)

  function ReadCentral(a: seq<Byte>, at: nat): Option<Record> {
    if at + 46 > |a| || At32(a, at) != CENTRAL_SIGNATURE || At16(a, at + 10) != 0
      || At32(a, at + 20) != At32(a, at + 24) then None
    else
      var n := At16(a, at + 28);
      var next := at + 46 + n + At16(a, at + 30) + At16(a, at + 32);
      if next > |a| then None
      else Some(Record(a[at + 46..at + 46 + n], At32(a, at + 16), At32(a, at + 20), At32(a, at + 42), next))
  }

  /** The stored bytes a central record points at, when the local header says the same of them. */
  function ReadLocal(a: seq<Byte>, r: Record): Option<seq<Byte>> {
    var at := r.offset;
    if at + 30 > |a| || At32(a, at) != LOCAL_SIGNATURE || At16(a, at + 8) != 0 || At32(a, at + 14) != r.crc
       || At32(a, at + 18) != r.size || At32(a, at + 22) != r.size || At16(a, at + 26) != |r.name| then None
    else
      var start := at + 30 + |r.name| + At16(a, at + 28);
      if start + r.size > |a| || a[at + 30..at + 30 + |r.name|] != r.name then None
      else
        var data := a[start..start + r.size];
        if CrcOf(data) != r.crc then None else Some(data)
  }

  function ReadEntry(a: seq<Byte>, at: nat): Option<(Entry, nat)> {
    var r := ReadCentral(a, at);
    if r.None? then None
    else
      var data, name := ReadLocal(a, r.value), Decode(r.value.name);
      if data.None? || name.None? then None else Some((Entry(name.value, data.value), r.value.next))
  }

  function EntryReader(a: seq<Byte>): nat -> Option<(Entry, nat)> {
    at => ReadEntry(a, at)
  }

  /** `count` items one after the other from position `at`, which must end at `end`. */
  function ReadAll<T>(read: nat -> Option<(T, nat)>, at: nat, count: nat, end: nat): Option<seq<T>>
    decreases count
  {
    if count == 0 then (if at == end then Some([]) else None)
    else
      var first := read(at);
      if first.None? then None
      else
        var rest := ReadAll(read, first.value.1, count - 1, end);
        if rest.None? then None else Some([first.value.0] + rest.value)
  }

  function Read(a: seq<Byte>): Option<seq<Entry>> {
    if |a| < 22 then None
    else
      var e := |a| - 22;
      if At32(a, e) != END_SIGNATURE || At16(a, e + 8) != At16(a, e + 10) || At16(a, e + 20) != 0
         || At32(a, e + 16) + At32(a, e + 12) != e then None
      else ReadAll(EntryReader(a), At32(a, e + 16), At16(a, e + 10), e)
  }

  // ---- Fields -----------------------------------------------------------------------

  lemma Digits16(v: nat)
    ensures Digit0(v) as int + 0x100 * Digit1(v) as int == v % 0x10000
  { }

  lemma Halves(v: nat)
    ensures v / 0x10000 / 0x100 == v / 0x1000000
    ensures v % 0x10000 + 0x10000 * (v / 0x10000 % 0x10000) == v % 0x100000000
  { }

  lemma Digits32(v: nat)
    ensures Digit0(v) as int + 0x100 * Digit1(v) as int + 0x10000 * (Digit2(v) as int + 0x100 * Digit3(v) as int) ==
      v % 0x100000000
  {
    Digits16(v);
    Digits16(v / 0x10000);
    Halves(v);
  }

  lemma CrcFits(data: seq<Byte>)
    ensures CrcOf(data) < 0x100000000
  { }

  /** The archive holds `b` at `at`. */
  ghost predicate Holds(a: seq<Byte>, at: nat, b: seq<Byte>) {
    at + |b| <= |a| && a[at..at + |b|] == b
  }

  lemma HoldsParts(a: seq<Byte>, at: nat, b: seq<Byte>, c: seq<Byte>)
    requires Holds(a, at, b + c)
    ensures Holds(a, at, b) && Holds(a, at + |b|, c)
  {
    assert a[at..at + |b + c|][..|b|] == b;
    assert a[at..at + |b + c|][|b|..] == c;
  }

  lemma Field2(a: seq<Byte>, at: nat, v: nat, rest: seq<Byte>) returns (next: nat)
    requires Holds(a, at, Word2(v) + rest)
    ensures next == at + 2 <= |a| && At16(a, at) == v % 0x10000 && Holds(a, next, rest)
  {
    next := at + 2;
    HoldsParts(a, at, Word2(v), rest);
    assert a[at] == a[at..at + 2][0] && a[at + 1] == a[at..at + 2][1];
    Digits16(v);
  }

  lemma Field4(a: seq<Byte>, at: nat, v: nat, rest: seq<Byte>) returns (next: nat)
    requires Holds(a, at, Word4(v) + rest)
    ensures next == at + 4 <= |a| && At32(a, at) == v % 0x100000000 && Holds(a, next, rest)
  {
    next := at + 4;
    HoldsParts(a, at, Word4(v), rest);
    var w := a[at..at + 4];
    assert a[at] == w[0] && a[at + 1] == w[1] && a[at + 2] == w[2] && a[at + 3] == w[3];
    Digits32(v);
  }

  /** Names and sizes that fit their fields. */
  predicate Fits(e: Entry) {
    |Encode(e.name)| < 0x10000 && |e.data| < 0x100000000
  }

  lemma StampedFields(a: seq<Byte>, at: nat, st: Stamp, rest: seq<Byte>) returns (next: nat)
    requires Holds(a, at, Stamped(st, rest))
    ensures next == at + 8 <= |a| && Holds(a, next, rest) && At16(a, at) == 0x0800 && At16(a, at + 2) == 0
    ensures At16(a, at + 4) == st.time % 0x10000 && At16(a, at + 6) == st.day % 0x10000
  {
    var r3 := Word2(st.day) + rest;
    var r2 := Word2(st.time) + r3;
    var r1 := Word2(0) + r2;
    next := Field2(a, at, 0x0800, r1);
    next := Field2(a, next, 0, r2);
    next := Field2(a, next, st.time, r3);
    next := Field2(a, next, st.day, rest);
  }

  lemma DescribedFields(a: seq<Byte>, at: nat, crc: nat, size: nat, n: nat, rest: seq<Byte>) returns (next: nat)
    requires Holds(a, at, Described(crc, size, n, rest))
    ensures next == at + 16 <= |a| && Holds(a, next, rest)
    ensures At32(a, at) == crc % 0x100000000 && At32(a, at + 4) == size % 0x100000000 == At32(a, at + 8)
    ensures At16(a, at + 12) == n % 0x10000 && At16(a, at + 14) == 0
  {
    var r4 := Word2(0) + rest;
    var r3 := Word2(n) + r4;
    var r2 := Word4(size) + r3;
    var r1 := Word4(size) + r2;
    next := Field4(a, at, crc, r1);
    next := Field4(a, next, size, r2);
    next := Field4(a, next, size, r3);
    next := Field2(a, next, n, r4);
    next := Field2(a, next, 0, rest);
  }

  lemma PlacedFields(a: seq<Byte>, at: nat, offset: nat, rest: seq<Byte>) returns (next: nat)
    requires Holds(a, at, Placed(offset, rest))
    ensures next == at + 14 <= |a| && Holds(a, next, rest)
    ensures At16(a, at) == 0 && At16(a, at + 2) == 0 && At16(a, at + 4) == 0 && At32(a, at + 6) == 0
    ensures At32(a, at + 10) == offset % 0x100000000
  {
    var r4 := Word4(offset) + rest;
    var r3 := Word4(0) + r4;
    var r2 := Word2(0) + r3;
    var r1 := Word2(0) + r2;
    next := Field2(a, at, 0, r1);
    next := Field2(a, next, 0, r2);
    next := Field2(a, next, 0, r3);
    next := Field4(a, next, 0, r4);
    next := Field4(a, next, offset, rest);
  }

  lemma LocalFront(a: seq<Byte>, at: nat, st: Stamp, rest: seq<Byte>) returns (next: nat)
    requires Holds(a, at, Word4(LOCAL_SIGNATURE) + (Word2(20) + Stamped(st, rest)))
    ensures next == at + 14 <= |a| && Holds(a, next, rest)
    ensures At32(a, at) == LOCAL_SIGNATURE && At16(a, at + 8) == 0
  {
    var stamped := Stamped(st, rest);
    next := Field4(a, at, LOCAL_SIGNATURE, Word2(20) + stamped);
    next := Field2(a, next, 20, stamped);
    next := StampedFields(a, next, st, rest);
  }

  lemma CentralFront(a: seq<Byte>, at: nat, st: Stamp, rest: seq<Byte>) returns (next: nat)
    requires Holds(a, at, Word4(CENTRAL_SIGNATURE) + (Word2(20) + (Word2(20) + Stamped(st, rest))))
    ensures next == at + 16 <= |a| && Holds(a, next, rest)
    ensures At32(a, at) == CENTRAL_SIGNATURE && At16(a, at + 10) == 0
  {
    var stamped := Stamped(st, rest);
    next := Field4(a, at, CENTRAL_SIGNATURE, Word2(20) + (Word2(20) + stamped));
    next := Field2(a, next, 20, Word2(20) + stamped);
    next := Field2(a, next, 20, stamped);
    next := StampedFields(a, next, st, rest);
  }

  lemma LocalFields(a: seq<Byte>, at: nat, st: Stamp, crc: nat, size: nat, n: nat, rest: seq<Byte>)
    requires Holds(a, at, LocalHeader(st, crc, size, n, rest))
    ensures at + 30 <= |a| && Holds(a, at + 30, rest)
    ensures At32(a, at) == LOCAL_SIGNATURE && At16(a, at + 8) == 0
    ensures At32(a, at + 14) == crc % 0x100000000 && At32(a, at + 18) == size % 0x100000000 == At32(a, at + 22)
    ensures At16(a, at + 26) == n % 0x10000 && At16(a, at + 28) == 0
  {
    var p := LocalFront(a, at, st, Described(crc, size, n, rest));
    p := DescribedFields(a, p, crc, size, n, rest);
  }

  lemma CentralFields(a: seq<Byte>, at: nat, st: Stamp, crc: nat, size: nat, n: nat, offset: nat, rest: seq<Byte>)
    requires Holds(a, at, CentralHeader(st, crc, size, n, offset, rest))
    ensures at + 46 <= |a| && Holds(a, at + 46, rest)
    ensures At32(a, at) == CENTRAL_SIGNATURE && At16(a, at + 10) == 0
    ensures At32(a, at + 16) == crc % 0x100000000 && At32(a, at + 20) == size % 0x100000000 == At32(a, at + 24)
    ensures At16(a, at + 28) == n % 0x10000 && At16(a, at + 30) == 0 && At16(a, at + 32) == 0
    ensures At32(a, at + 42) == offset % 0x100000000
  {
    var placed := Placed(offset, rest);
    var p := CentralFront(a, at, st, Described(crc, size, n, placed));
    p := DescribedFields(a, p, crc, size, n, placed);
    p := PlacedFields(a, p, offset, rest);
  }

  lemma EndFields(a: seq<Byte>, e: nat, count: nat, directory: nat, offset: nat)
    requires Holds(a, e, EndRecord(count, directory, offset))
    ensures e + 22 <= |a|
    ensures At32(a, e) == END_SIGNATURE && At16(a, e + 8) == count % 0x10000 == At16(a, e + 10)
    ensures At32(a, e + 12) == directory % 0x100000000 && At32(a, e + 16) == offset % 0x100000000
      && At16(a, e + 20) == 0
  {
    var r6 := Word4(offset) + Word2(0);
    var r5 := Word4(directory) + r6;
    var r4 := Word2(count) + r5;
    var r3 := Word2(count) + r4;
    var r2 := Word2(0) + r3;
    var r1 := Word2(0) + r2;
    var p := Field4(a, e, END_SIGNATURE, r1);
    p := Field2(a, p, 0, r2);
    p := Field2(a, p, 0, r3);
    p := Field2(a, p, count, r4);
    p := Field2(a, p, count, r5);
    p := Field4(a, p, directory, r6);
    p := Field4(a, p, offset, Word2(0));
    assert Word2(0) + [] == Word2(0);
    p := Field2(a, p, 0, []);
  }

  lemma CentralAnswer(a: seq<Byte>, at: nat, r: Record)
    requires at + 46 <= |a| && Holds(a, at + 46, r.name) && r.next == at + 46 + |r.name|
    requires At32(a, at) == CENTRAL_SIGNATURE && At16(a, at + 10) == 0
    requires At32(a, at + 16) == r.crc && At32(a, at + 20) == r.size == At32(a, at + 24) && At32(a, at + 42) == r.offset
    requires At16(a, at + 28) == |r.name| && At16(a, at + 30) == 0 && At16(a, at + 32) == 0
    ensures ReadCentral(a, at) == Some(r)
  { }

  lemma LocalAnswer(a: seq<Byte>, r: Record, data: seq<Byte>)
    requires r.offset + 30 <= |a| && Holds(a, r.offset + 30, r.name) && Holds(a, r.offset + 30 + |r.name|, data)
    requires At32(a, r.offset) == LOCAL_SIGNATURE && At16(a, r.offset + 8) == 0
    requires At32(a, r.offset + 14) == r.crc && At32(a, r.offset + 18) == r.size == At32(a, r.offset + 22)
    requires At16(a, r.offset + 26) == |r.name| && At16(a, r.offset + 28) == 0
    requires r.size == |data| && r.crc == CrcOf(data)
    ensures ReadLocal(a, r) == Some(data)
  {
    var start := r.offset + 30 + |r.name|;
    assert a[start..start + r.size] == data && a[r.offset + 30..start] == r.name;
  }

  lemma Small(v: nat)
    ensures v < 0x10000 ==> v % 0x10000 == v
    ensures v < 0x100000000 ==> v % 0x100000000 == v
  { }

  lemma CentralReads(a: seq<Byte>, at: nat, e: Entry, st: Stamp, r: Record)
    requires Holds(a, at, Central(e, st, r.offset)) && Fits(e) && r.offset < 0x100000000
    requires r.name == Encode(e.name) && r.crc == CrcOf(e.data) && r.size == |e.data| && r.next == at + 46 + |r.name|
    ensures ReadCentral(a, at) == Some(r)
  {
    CrcFits(e.data);
    Small(r.crc);
    Small(r.size);
    Small(|r.name|);
    Small(r.offset);
    CentralFields(a, at, st, r.crc, r.size, |r.name|, r.offset, r.name);
    CentralAnswer(a, at, r);
  }

  lemma LocalFieldsFit(a: seq<Byte>, st: Stamp, r: Record, rest: seq<Byte>)
    requires Holds(a, r.offset, LocalHeader(st, r.crc, r.size, |r.name|, rest))
    requires |r.name| < 0x10000 && r.crc < 0x100000000 && r.size < 0x100000000
    ensures r.offset + 30 <= |a| && Holds(a, r.offset + 30, rest)
    ensures At32(a, r.offset) == LOCAL_SIGNATURE && At16(a, r.offset + 8) == 0
    ensures At32(a, r.offset + 14) == r.crc && At32(a, r.offset + 18) == r.size == At32(a, r.offset + 22)
    ensures At16(a, r.offset + 26) == |r.name| && At16(a, r.offset + 28) == 0
  {
    Small(r.crc);
    Small(r.size);
    Small(|r.name|);
    LocalFields(a, r.offset, st, r.crc, r.size, |r.name|, rest);
  }

  lemma LocalIs(e: Entry, st: Stamp, r: Record) returns (local: seq<Byte>, rest: seq<Byte>)
    requires r.name == Encode(e.name) && r.crc == CrcOf(e.data) && r.size == |e.data|
    ensures local == Local(e, st) && rest == r.name + e.data && local == LocalHeader(st, r.crc, r.size, |r.name|, rest)
  {
    local, rest := Local(e, st), r.name + e.data;
  }

  lemma LocalReads(a: seq<Byte>, e: Entry, st: Stamp, r: Record, local: seq<Byte>)
    requires local == Local(e, st) && Holds(a, r.offset, local) && Fits(e) && r.crc < 0x100000000
    requires r.name == Encode(e.name) && r.crc == CrcOf(e.data) && r.size == |e.data|
    ensures ReadLocal(a, r) == Some(e.data)
  {
    var local', rest := LocalIs(e, st, r);
    LocalFieldsFit(a, st, r, rest);
    HoldsParts(a, r.offset + 30, r.name, e.data);
    LocalAnswer(a, r, e.data);
  }

  lemma CentralLength(e: Entry, st: Stamp, offset: nat)
    ensures |Central(e, st, offset)| == 46 + |Encode(e.name)|
  { }

  /** One entry read back from an archive that holds its two records. */
  lemma OneEntryReads(a: seq<Byte>, e: Entry, st: Stamp, at: nat, offset: nat, next: nat)
    returns (answer: Option<(Entry, nat)>)
    requires Holds(a, offset, Local(e, st)) && Holds(a, at, Central(e, st, offset)) && Fits(e) && offset < 0x100000000
    requires next == at + |Central(e, st, offset)|
    ensures answer == ReadEntry(a, at) && answer == Some((e, next))
  {
    CentralLength(e, st, offset);
    var r := Record(Encode(e.name), CrcOf(e.data), |e.data|, offset, next);
    CentralReads(a, at, e, st, r);
    CrcFits(e.data);
    LocalReads(a, e, st, r, Local(e, st));
    RoundTrip(e.name);
    answer := ReadEntry(a, at);
  }

  // ---- The whole archive ------------------------------------------------------------

  lemma HoldsWithin(before: seq<Byte>, a: seq<Byte>, after: seq<Byte>, at: nat, b: seq<Byte>)
    requires Holds(a, at, b)
    ensures Holds(before + a + after, |before| + at, b)
  {
    var whole := before + a + after;
    assert whole[|before| + at..|before| + at + |b|] == a[at..at + |b|];
  }

  lemma {:induction false} ConcatHolds(parts: seq<seq<Byte>>, k: nat)
    requires k < |parts|
    ensures Holds(Concat(parts), Offset(parts, k), parts[k])
    ensures Offset(parts, k + 1) == Offset(parts, k) + |parts[k]| <= |Concat(parts)|
    decreases |parts|
  {
    var front, last := parts[..|parts| - 1], parts[|parts| - 1];
    assert parts[..k + 1][..k] == parts[..k];
    if k < |parts| - 1 {
      ConcatHolds(front, k);
      assert front[..k] == parts[..k] && front[..k + 1] == parts[..k + 1];
      HoldsWithin([], Concat(front), last, Offset(parts, k), parts[k]);
      assert [] + Concat(front) + last == Concat(parts);
    } else {
      assert parts[..k + 1] == parts;
    }
  }

  lemma OffsetEnds(parts: seq<seq<Byte>>)
    ensures Offset(parts, 0) == 0 && Offset(parts, |parts|) == |Concat(parts)|
  {
    assert parts[..0] == [] && parts[..|parts|] == parts;
  }

  lemma AssembledHolds(ls: seq<seq<Byte>>, cs: seq<seq<Byte>>, end: seq<Byte>, a: seq<Byte>, k: nat)
    returns (offset: nat, at: nat, next: nat)
    requires |ls| == |cs| && k < |ls| && a == Assemble(ls, cs, end)
    ensures offset == Offset(ls, k) <= |Concat(ls)| && at == |Concat(ls)| + Offset(cs, k)
      && next == |Concat(ls)| + Offset(cs, k + 1)
    ensures Holds(a, offset, ls[k]) && Holds(a, at, cs[k]) && next == at + |cs[k]|
  {
    offset, at, next := Offset(ls, k), |Concat(ls)| + Offset(cs, k), |Concat(ls)| + Offset(cs, k + 1);
    ConcatHolds(ls, k);
    ConcatHolds(cs, k);
    HoldsWithin([], Concat(ls), Concat(cs) + end, Offset(ls, k), ls[k]);
    assert [] + Concat(ls) + (Concat(cs) + end) == a;
    HoldsWithin(Concat(ls), Concat(cs), end, Offset(cs, k), cs[k]);
  }

  /** What the 16- and 32-bit fields of the format can hold. */
  predicate WithinLimits(es: seq<Entry>, st: Stamp) {
    |es| < 0x10000 && |Concat(Locals(es, st))| < 0x100000000 && |Concat(Centrals(es, st))| < 0x100000000
    && forall k :: 0 <= k < |es| ==> Fits(es[k])
  }

  /** What reading relies on: where each local record, each central record and the end record lie. */
  ghost predicate Laid(a: seq<Byte>, ls: seq<seq<Byte>>, cs: seq<seq<Byte>>, offsets: seq<nat>, at: seq<nat>, e: nat) {
    && |ls| == |cs| == |offsets| && |at| == |ls| + 1 && at[0] <= at[|ls|] == e
    && Holds(a, e, EndRecord(|ls|, e - at[0], at[0])) && |a| == e + 22
    && forall k :: 0 <= k < |ls| ==> LaidEntry(a, ls[k], cs[k], offsets[k], at[k], at[k + 1])
  }

  ghost predicate LaidEntry(a: seq<Byte>, local: seq<Byte>, central: seq<Byte>, offset: nat, at: nat, next: nat) {
    Holds(a, offset, local) && Holds(a, at, central) && next == at + |central|
  }

  /** Items read one after the other, each starting where the one before it ends. */
  lemma {:induction false} AllInOrder<T>(read: nat -> Option<(T, nat)>, xs: seq<T>, at: seq<nat>, k: nat)
    requires |at| == |xs| + 1 && k <= |xs|
    requires forall i: nat :: i < |xs| ==> read(at[i]) == Some((xs[i], at[i + 1]))
    ensures ReadAll(read, at[k], |xs| - k, at[|xs|]) == Some(xs[k..])
    decreases |xs| - k
  {
    if k < |xs| {
      AllInOrder(read, xs, at, k + 1);
      assert [xs[k]] + xs[k + 1..] == xs[k..];
    }
  }

  lemma EndAnswer(a: seq<Byte>, e: nat, count: nat, directory: nat, offset: nat)
    returns (read: nat -> Option<(Entry, nat)>, result: Option<seq<Entry>>)
    requires Holds(a, e, EndRecord(count, directory, offset)) && |a| == e + 22
    requires count < 0x10000 && directory < 0x100000000 && offset < 0x100000000 && e == offset + directory
    ensures read == EntryReader(a) && result == Read(a) && result == ReadAll(read, offset, count, e)
  {
    Small(count);
    Small(directory);
    Small(offset);
    EndFields(a, e, count, directory, offset);
    read, result := EntryReader(a), Read(a);
  }

  lemma PartsAt(es: seq<Entry>, st: Stamp, ls: seq<seq<Byte>>, cs: seq<seq<Byte>>, k: nat, offset: nat)
    requires k < |es| && ls == Locals(es, st) && cs == Centrals(es, st) && offset == Offset(ls, k)
    ensures ls[k] == Local(es[k], st) && cs[k] == Central(es[k], st, offset)
  { }

  /** Every central record points at a local header with the same name, size and checksum, and at the entry's bytes. */
  lemma EntryReads(a: seq<Byte>, es: seq<Entry>, st: Stamp, ls: seq<seq<Byte>>, cs: seq<seq<Byte>>, k: nat,
                   offset: nat, at: nat, next: nat)
    returns (answer: Option<(Entry, nat)>)
    requires k < |es| && ls == Locals(es, st) && cs == Centrals(es, st) && offset == Offset(ls, k) < 0x100000000
    requires LaidEntry(a, ls[k], cs[k], offset, at, next) && Fits(es[k])
    ensures answer == ReadEntry(a, at) && answer == Some((es[k], next))
  {
    PartsAt(es, st, ls, cs, k, offset);
    answer := OneEntryReads(a, es[k], st, at, offset, next);
  }

  lemma WholeDirectory<T>(xs: seq<T>, read: nat -> Option<(T, nat)>, at: seq<nat>, start: nat, end: nat,
                          result: Option<seq<T>>)
    requires |at| == |xs| + 1 && start == at[0] && end == at[|xs|]
    requires forall k: nat :: k < |xs| ==> read(at[k]) == Some((xs[k], at[k + 1]))
    requires result == ReadAll(read, start, |xs|, end)
    ensures result == Some(xs)
  {
    AllInOrder(read, xs, at, 0);
    assert xs[0..] == xs;
  }

  lemma AllRead(a: seq<Byte>, es: seq<Entry>, st: Stamp, ls: seq<seq<Byte>>, cs: seq<seq<Byte>>, offsets: seq<nat>,
                at: seq<nat>, e: nat, read: nat -> Option<(Entry, nat)>)
    requires ls == Locals(es, st) && cs == Centrals(es, st) && Laid(a, ls, cs, offsets, at, e) && read == EntryReader(a)
    requires forall k :: 0 <= k < |es| ==> Fits(es[k]) && offsets[k] == Offset(ls, k) < 0x100000000
    ensures forall k: nat :: k < |es| ==> read(at[k]) == Some((es[k], at[k + 1]))
  {
    forall k: nat | k < |es| ensures read(at[k]) == Some((es[k], at[k + 1])) {
      var answer := EntryReads(a, es, st, ls, cs, k, offsets[k], at[k], at[k + 1]);
    }
  }

  /** An archive laid out like this reads back as its entries. */
  lemma LaidReads(a: seq<Byte>, es: seq<Entry>, st: Stamp, ls: seq<seq<Byte>>, cs: seq<seq<Byte>>, offsets: seq<nat>,
                  at: seq<nat>, e: nat)
    returns (result: Option<seq<Entry>>)
    requires ls == Locals(es, st) && cs == Centrals(es, st) && Laid(a, ls, cs, offsets, at, e)
    requires |es| < 0x10000 && at[0] < 0x100000000 && e - at[0] < 0x100000000
    requires forall k :: 0 <= k < |es| ==> Fits(es[k]) && offsets[k] == Offset(ls, k) < 0x100000000
    ensures result == Read(a) && result == Some(es)
  {
    var read;
    read, result := EndAnswer(a, e, |es|, e - at[0], at[0]);
    AllRead(a, es, st, ls, cs, offsets, at, e, read);
    WholeDirectory(es, read, at, at[0], e, result);
  }

  // ---- What is written is laid out so -----------------------------------------------

  lemma EndLength(count: nat, directory: nat, offset: nat)
    ensures |EndRecord(count, directory, offset)| == 22
  { }

  lemma AssembledEnds(ls: seq<seq<Byte>>, cs: seq<seq<Byte>>, end: seq<Byte>, a: seq<Byte>) returns (e: nat)
    requires a == Assemble(ls, cs, end)
    ensures e == |Concat(ls)| + |Concat(cs)| && Holds(a, e, end) && |a| == e + |end|
  {
    e := |Concat(ls)| + |Concat(cs)|;
  }

  /** Where the local records start, and where the central records do. */
  ghost function Starts(ls: seq<seq<Byte>>): seq<nat> {
    seq(|ls|, k requires 0 <= k < |ls| => Offset(ls, k))
  }

  ghost function Positions(ls: seq<seq<Byte>>, cs: seq<seq<Byte>>): seq<nat> {
    seq(|cs| + 1, k requires 0 <= k <= |cs| => |Concat(ls)| + Offset(cs, k))
  }

  lemma PlacesAt(ls: seq<seq<Byte>>, cs: seq<seq<Byte>>, offsets: seq<nat>, at: seq<nat>, k: nat)
    requires |ls| == |cs| && k < |ls| && offsets == Starts(ls) && at == Positions(ls, cs)
    ensures offsets[k] == Offset(ls, k) && at[k] == |Concat(ls)| + Offset(cs, k)
      && at[k + 1] == |Concat(ls)| + Offset(cs, k + 1)
  { }

  lemma EntriesLaid(ls: seq<seq<Byte>>, cs: seq<seq<Byte>>, end: seq<Byte>, a: seq<Byte>, offsets: seq<nat>,
                    at: seq<nat>)
    requires |ls| == |cs| && a == Assemble(ls, cs, end) && offsets == Starts(ls) && at == Positions(ls, cs)
    ensures forall k :: 0 <= k < |ls| ==> LaidEntry(a, ls[k], cs[k], offsets[k], at[k], at[k + 1])
    ensures forall k :: 0 <= k < |ls| ==> offsets[k] == Offset(ls, k) <= |Concat(ls)|
  {
    forall k | 0 <= k < |ls|
      ensures LaidEntry(a, ls[k], cs[k], offsets[k], at[k], at[k + 1]) && offsets[k] == Offset(ls, k) <= |Concat(ls)|
    {
      PlacesAt(ls, cs, offsets, at, k);
      var o, p, q := AssembledHolds(ls, cs, end, a, k);
    }
  }

  lemma PlacesEnd(ls: seq<seq<Byte>>, cs: seq<seq<Byte>>, at: seq<nat>, e: nat)
    requires at == Positions(ls, cs) && e == |Concat(ls)| + |Concat(cs)|
    ensures |at| == |cs| + 1 && at[0] == |Concat(ls)| <= at[|cs|] == e
  {
    OffsetEnds(cs);
  }

  lemma AssembledLaid(ls: seq<seq<Byte>>, cs: seq<seq<Byte>>, end: seq<Byte>, a: seq<Byte>)
    returns (offsets: seq<nat>, at: seq<nat>, e: nat)
    requires |ls| == |cs| && a == Assemble(ls, cs, end) && end == EndRecord(|ls|, |Concat(cs)|, |Concat(ls)|)
    ensures Laid(a, ls, cs, offsets, at, e) && at[0] == |Concat(ls)| && e - at[0] == |Concat(cs)|
    ensures forall k :: 0 <= k < |ls| ==> offsets[k] == Offset(ls, k) <= at[0]
  {
    offsets, at := Starts(ls), Positions(ls, cs);
    EndLength(|ls|, |Concat(cs)|, |Concat(ls)|);
    e := AssembledEnds(ls, cs, end, a);
    PlacesEnd(ls, cs, at, e);
    EntriesLaid(ls, cs, end, a, offsets, at);
  }

  lemma ArchiveLaid(es: seq<Entry>, st: Stamp, a: seq<Byte>)
    returns (ls: seq<seq<Byte>>, cs: seq<seq<Byte>>, offsets: seq<nat>, at: seq<nat>, e: nat)
    requires a == Archive(es, st)
    ensures ls == Locals(es, st) && cs == Centrals(es, st) && Laid(a, ls, cs, offsets, at, e)
    ensures at[0] == |Concat(ls)| && e - at[0] == |Concat(cs)|
    ensures forall k :: 0 <= k < |es| ==> offsets[k] == Offset(ls, k) <= at[0]
  {
    ls, cs := Locals(es, st), Centrals(es, st);
    offsets, at, e := AssembledLaid(ls, cs, EndRecord(|es|, |Concat(cs)|, |Concat(ls)|), a);
  }

  /** Reading a written archive from its end record gives the entries back: names, bytes and order. */
  lemma ReadsBack(es: seq<Entry>, st: Stamp, a: seq<Byte>)
    requires WithinLimits(es, st) && a == Archive(es, st)
    ensures Read(a) == Some(es)
  {
    var ls, cs, offsets, at, e := ArchiveLaid(es, st, a);
    var result := LaidReads(a, es, st, ls, cs, offsets, at, e);
  }
}
