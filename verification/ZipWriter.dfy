/** `zip` and `concat` over byte buffers, proved to write the archive the layout describes. */
module ZipWriter {
  import opened Utf8
  import opened Zip
  import Crc

  /** The buffer holds the beginning of `target` up to `at`, and zeros from there on. */
  ghost predicate Begun(a: array<Byte>, at: nat, target: seq<Byte>)
    reads a
  {
    at <= a.Length == |target| && a[..at] == target[..at] && forall i :: at <= i < a.Length ==> a[i] == 0
  }

  /** `target` continues at `at` with this field, and then with `rest`. */
  ghost predicate Continues(target: seq<Byte>, at: nat, field: seq<Byte>, rest: seq<Byte>) {
    at <= |target| && target[at..] == field + rest
  }

  lemma After(target: seq<Byte>, at: nat, field: seq<Byte>, rest: seq<Byte>)
    requires Continues(target, at, field, rest)
    ensures at + |field| <= |target| && target[at..at + |field|] == field && target[at + |field|..] == rest
    ensures target[..at + |field|] == target[..at] + field
  {
    assert target[at..][..|field|] == field && target[at..][|field|..] == rest;
  }

  method SetUint16(a: array<Byte>, at: nat, v: nat, ghost target: seq<Byte>, ghost rest: seq<Byte>)
    requires Begun(a, at, target) && Continues(target, at, Word2(v), rest)
    modifies a
    ensures Begun(a, at + 2, target) && target[at + 2..] == rest
  {
    After(target, at, Word2(v), rest);
    a[at], a[at + 1] := Digit0(v), Digit1(v);
    assert a[..at + 2] == a[..at] + Word2(v);
  }

  method SetUint32(a: array<Byte>, at: nat, v: nat, ghost target: seq<Byte>, ghost rest: seq<Byte>)
    requires Begun(a, at, target) && Continues(target, at, Word4(v), rest)
    modifies a
    ensures Begun(a, at + 4, target) && target[at + 4..] == rest
  {
    After(target, at, Word4(v), rest);
    a[at], a[at + 1], a[at + 2], a[at + 3] := Digit0(v), Digit1(v), Digit2(v), Digit3(v);
    assert a[..at + 4] == a[..at] + Word4(v);
  }

  /** A field left at zero. */
  lemma Skip2(a: array<Byte>, at: nat, target: seq<Byte>, rest: seq<Byte>)
    requires Begun(a, at, target) && Continues(target, at, Word2(0), rest)
    ensures Begun(a, at + 2, target) && target[at + 2..] == rest
  {
    After(target, at, Word2(0), rest);
    assert a[..at + 2] == a[..at] + [a[at], a[at + 1]];
  }

  lemma Skip4(a: array<Byte>, at: nat, target: seq<Byte>, rest: seq<Byte>)
    requires Begun(a, at, target) && Continues(target, at, Word4(0), rest)
    ensures Begun(a, at + 4, target) && target[at + 4..] == rest
  {
    After(target, at, Word4(0), rest);
    assert a[..at + 4] == a[..at] + [a[at], a[at + 1], a[at + 2], a[at + 3]];
  }

  method SetBytes(a: array<Byte>, bytes: seq<Byte>, at: nat)
    requires at + |bytes| <= a.Length
    modifies a
    ensures forall i :: 0 <= i < |bytes| ==> a[at + i] == bytes[i]
    ensures forall i :: 0 <= i < a.Length && !(at <= i < at + |bytes|) ==> a[i] == old(a[i])
  {
    for k := 0 to |bytes|
      invariant forall i :: 0 <= i < k ==> a[at + i] == bytes[i]
      invariant forall i :: 0 <= i < a.Length && !(at <= i < at + k) ==> a[i] == old(a[i])
    {
      a[at + k] := bytes[k];
    }
  }

  /** The parts one after the other in one buffer of their total length. */
  method ConcatParts(parts: seq<seq<Byte>>) returns (out: array<Byte>)
    ensures fresh(out) && out[..] == Concat(parts)
  {
    var total := 0;
    for k := 0 to |parts|
      invariant total == Offset(parts, k)
    {
      assert parts[..k + 1][..k] == parts[..k];
      total := total + |parts[k]|;
    }
    OffsetEnds(parts);
    out := new Byte[total](_ => 0);
    var at := 0;
    for k := 0 to |parts|
      invariant at == Offset(parts, k) <= out.Length && out[..at] == Concat(parts[..k])
    {
      ConcatHolds(parts, k);
      assert parts[..k + 1][..k] == parts[..k];
      ghost var before := out[..at];
      SetBytes(out, parts[k], at);
      assert out[..at] == before && out[at..at + |parts[k]|] == parts[k];
      assert out[..at + |parts[k]|] == out[..at] + out[at..at + |parts[k]|];
      at := at + |parts[k]|;
    }
    assert parts[..|parts|] == parts && out[..at] == out[..];
  }

  // ---- Headers ----------------------------------------------------------------------

  /** Flags, method, time and day, at `at`. */
  method SetStamp(a: array<Byte>, at: nat, st: Stamp, ghost target: seq<Byte>, ghost rest: seq<Byte>)
    requires Begun(a, at, target) && target[at..] == Stamped(st, rest)
    modifies a
    ensures Begun(a, at + 8, target) && target[at + 8..] == rest
  {
    ghost var r3 := Word2(st.day) + rest;
    ghost var r2 := Word2(st.time) + r3;
    ghost var r1 := Word2(0) + r2;
    SetUint16(a, at, 0x0800, target, r1);
    Skip2(a, at + 2, target, r2);
    SetUint16(a, at + 4, st.time, target, r3);
    SetUint16(a, at + 6, st.day, target, rest);
  }

  /** Checksum, both sizes and the name's length, at `at`. */
  method SetDescription(a: array<Byte>, at: nat, crc: nat, size: nat, n: nat, ghost target: seq<Byte>,
                        ghost rest: seq<Byte>)
    requires Begun(a, at, target) && target[at..] == Described(crc, size, n, rest)
    modifies a
    ensures Begun(a, at + 16, target) && target[at + 16..] == rest
  {
    ghost var r4 := Word2(0) + rest;
    ghost var r3 := Word2(n) + r4;
    ghost var r2 := Word4(size) + r3;
    ghost var r1 := Word4(size) + r2;
    SetUint32(a, at, crc, target, r1);
    SetUint32(a, at + 4, size, target, r2);
    SetUint32(a, at + 8, size, target, r3);
    SetUint16(a, at + 12, n, target, r4);
    Skip2(a, at + 14, target, rest);
  }

  method SetPlace(a: array<Byte>, at: nat, offset: nat, ghost target: seq<Byte>, ghost rest: seq<Byte>)
    requires Begun(a, at, target) && target[at..] == Placed(offset, rest)
    modifies a
    ensures Begun(a, at + 14, target) && target[at + 14..] == rest
  {
    ghost var r4 := Word4(offset) + rest;
    ghost var r3 := Word4(0) + r4;
    ghost var r2 := Word2(0) + r3;
    ghost var r1 := Word2(0) + r2;
    Skip2(a, at, target, r1);
    Skip2(a, at + 2, target, r2);
    Skip2(a, at + 4, target, r3);
    Skip4(a, at + 6, target, r4);
    SetUint32(a, at + 10, offset, target, rest);
  }

  /** The name, which ends the record. */
  method SetName(a: array<Byte>, at: nat, name: seq<Byte>, ghost target: seq<Byte>)
    requires Begun(a, at, target) && target[at..] == name
    modifies a
    ensures a[..] == target
  {
    SetBytes(a, name, at);
    assert a[..at] == target[..at] && a[at..] == name;
    assert a[..] == a[..at] + a[at..] && target == target[..at] + target[at..];
  }

  lemma HeaderLengths(st: Stamp, crc: nat, size: nat, name: seq<Byte>, offset: nat)
    ensures |LocalHeader(st, crc, size, |name|, name)| == 30 + |name|
    ensures |CentralHeader(st, crc, size, |name|, offset, name)| == 46 + |name|
  { }

  method LocalRecord(name: seq<Byte>, st: Stamp, crc: nat, size: nat) returns (local: array<Byte>)
    ensures fresh(local) && local[..] == LocalHeader(st, crc, size, |name|, name)
  {
    ghost var target := LocalHeader(st, crc, size, |name|, name);
    HeaderLengths(st, crc, size, name, 0);
    local := new Byte[30 + |name|](_ => 0);
    ghost var described := Described(crc, size, |name|, name);
    ghost var stamped := Stamped(st, described);
    SetUint32(local, 0, LOCAL_SIGNATURE, target, Word2(20) + stamped);
    SetUint16(local, 4, 20, target, stamped);
    SetStamp(local, 6, st, target, described);
    SetDescription(local, 14, crc, size, |name|, target, name);
    SetName(local, 30, name, target);
  }

  method CentralRecord(name: seq<Byte>, st: Stamp, crc: nat, size: nat, offset: nat) returns (central: array<Byte>)
    ensures fresh(central) && central[..] == CentralHeader(st, crc, size, |name|, offset, name)
  {
    ghost var target := CentralHeader(st, crc, size, |name|, offset, name);
    HeaderLengths(st, crc, size, name, offset);
    central := new Byte[46 + |name|](_ => 0);
    ghost var placed := Placed(offset, name);
    ghost var described := Described(crc, size, |name|, placed);
    ghost var stamped := Stamped(st, described);
    ghost var versioned := Word2(20) + stamped;
    SetUint32(central, 0, CENTRAL_SIGNATURE, target, Word2(20) + versioned);
    SetUint16(central, 4, 20, target, versioned);
    SetUint16(central, 6, 20, target, stamped);
    SetStamp(central, 8, st, target, described);
    SetDescription(central, 16, crc, size, |name|, target, placed);
    SetPlace(central, 32, offset, target, name);
    SetName(central, 46, name, target);
  }

  method EndOfDirectory(count: nat, directory: nat, offset: nat) returns (end: array<Byte>)
    ensures fresh(end) && end[..] == EndRecord(count, directory, offset)
  {
    ghost var target := EndRecord(count, directory, offset);
    EndLength(count, directory, offset);
    end := new Byte[22](_ => 0);
    ghost var r6 := Word4(offset) + Word2(0);
    ghost var r5 := Word4(directory) + r6;
    ghost var r4 := Word2(count) + r5;
    ghost var r3 := Word2(count) + r4;
    ghost var r2 := Word2(0) + r3;
    ghost var r1 := Word2(0) + r2;
    SetUint32(end, 0, END_SIGNATURE, target, r1);
    Skip2(end, 4, target, r2);
    Skip2(end, 6, target, r3);
    SetUint16(end, 8, count, target, r4);
    SetUint16(end, 10, count, target, r5);
    SetUint32(end, 12, directory, target, r6);
    SetUint32(end, 16, offset, target, Word2(0));
    assert Word2(0) == Word2(0) + [];
    Skip2(end, 20, target, []);
    assert end[..] == end[..22] && target == target[..22];
  }

  // ---- The archive ------------------------------------------------------------------

  lemma LocalIsHeaderAndData(e: Entry, st: Stamp, header: seq<Byte>)
    requires header == LocalHeader(st, CrcOf(e.data), |e.data|, |Encode(e.name)|, Encode(e.name))
    ensures Local(e, st) == header + e.data
  {
    HeaderAndMore(st, CrcOf(e.data), |e.data|, Encode(e.name), e.data);
  }

  lemma DescribedAndMore(crc: nat, size: nat, n: nat, rest: seq<Byte>, more: seq<Byte>)
    ensures Described(crc, size, n, rest + more) == Described(crc, size, n, rest) + more
  {
    assert Word2(0) + (rest + more) == (Word2(0) + rest) + more;
    var r4 := Word2(0) + rest;
    assert Word2(n) + (r4 + more) == (Word2(n) + r4) + more;
    var r3 := Word2(n) + r4;
    assert Word4(size) + (r3 + more) == (Word4(size) + r3) + more;
    var r2 := Word4(size) + r3;
    assert Word4(size) + (r2 + more) == (Word4(size) + r2) + more;
    var r1 := Word4(size) + r2;
    assert Word4(crc) + (r1 + more) == (Word4(crc) + r1) + more;
  }

  lemma StampedAndMore(st: Stamp, rest: seq<Byte>, more: seq<Byte>)
    ensures Stamped(st, rest + more) == Stamped(st, rest) + more
  {
    assert Word2(st.day) + (rest + more) == (Word2(st.day) + rest) + more;
    var r3 := Word2(st.day) + rest;
    assert Word2(st.time) + (r3 + more) == (Word2(st.time) + r3) + more;
    var r2 := Word2(st.time) + r3;
    assert Word2(0) + (r2 + more) == (Word2(0) + r2) + more;
    var r1 := Word2(0) + r2;
    assert Word2(0x0800) + (r1 + more) == (Word2(0x0800) + r1) + more;
  }

  lemma HeaderAndMore(st: Stamp, crc: nat, size: nat, name: seq<Byte>, more: seq<Byte>)
    ensures LocalHeader(st, crc, size, |name|, name + more) == LocalHeader(st, crc, size, |name|, name) + more
  {
    DescribedAndMore(crc, size, |name|, name, more);
    var described := Described(crc, size, |name|, name);
    StampedAndMore(st, described, more);
    var stamped := Stamped(st, described);
    assert Word2(20) + (stamped + more) == (Word2(20) + stamped) + more;
    var versioned := Word2(20) + stamped;
    assert Word4(LOCAL_SIGNATURE) + (versioned + more) == (Word4(LOCAL_SIGNATURE) + versioned) + more;
  }

  lemma ConcatMore(parts: seq<seq<Byte>>, x: seq<Byte>)
    ensures Concat(parts + [x]) == Concat(parts) + x
  {
    assert (parts + [x])[..|parts|] == parts;
  }

  lemma OneMorePart(parts: seq<seq<Byte>>, i: nat)
    requires i < |parts|
    ensures Concat(parts[..i + 1]) == Concat(parts[..i]) + parts[i]
  {
    assert parts[..i + 1][..i] == parts[..i];
  }

  /** The state of the loop after `i` entries. */
  ghost predicate Written(ls: seq<seq<Byte>>, cs: seq<seq<Byte>>, i: nat, locals: seq<seq<Byte>>,
                          centrals: seq<seq<Byte>>, offset: nat) {
    i <= |ls| == |cs| && Concat(locals) == Concat(ls[..i]) && centrals == cs[..i] && offset == |Concat(locals)|
  }

  lemma WrittenMore(ls: seq<seq<Byte>>, cs: seq<seq<Byte>>, i: nat, locals: seq<seq<Byte>>, centrals: seq<seq<Byte>>,
                    offset: nat, header: seq<Byte>, data: seq<Byte>, central: seq<Byte>)
    requires i < |ls| && Written(ls, cs, i, locals, centrals, offset) && header + data == ls[i] && central == cs[i]
    ensures Written(ls, cs, i + 1, locals + [header, data], centrals + [central], offset + |header| + |data|)
  {
    OneMorePart(ls, i);
    ConcatMore(locals, header);
    ConcatMore(locals + [header], data);
    assert locals + [header, data] == (locals + [header]) + [data];
  }

  lemma ConcatTwo(parts: seq<seq<Byte>>, x: seq<Byte>, y: seq<Byte>)
    ensures Concat(parts + [x, y]) == Concat(parts) + x + y
  {
    ConcatMore(parts, x);
    ConcatMore(parts + [x], y);
    assert parts + [x, y] == (parts + [x]) + [y];
  }

  lemma WrittenAll(ls: seq<seq<Byte>>, cs: seq<seq<Byte>>, locals: seq<seq<Byte>>, offset: nat, directory: seq<Byte>,
                   end: seq<Byte>)
    requires Written(ls, cs, |ls|, locals, cs, offset) && directory == Concat(cs)
    ensures offset == |Concat(ls)| && Concat(locals + [directory, end]) == Assemble(ls, cs, end)
  {
    assert ls[..|ls|] == ls;
    ConcatTwo(locals, directory, end);
  }

  predicate TableBuilt(table: array<bv32>)
    reads table
  {
    table.Length == 256 && forall n :: 0 <= n < 256 ==> table[n] == Crc.Shift8(n as bv32)
  }

  method Records(e: Entry, st: Stamp, offset: nat, table: array<bv32>)
    returns (header: array<Byte>, central: array<Byte>)
    requires TableBuilt(table)
    ensures fresh(header) && fresh(central)
    ensures header[..] + e.data == Local(e, st) && central[..] == Central(e, st, offset)
  {
    var name := Encode(e.name);
    var word := Crc.Crc32(table, Words(e.data));
    var crc: nat := word as int;
    header := LocalRecord(name, st, crc, |e.data|);
    central := CentralRecord(name, st, crc, |e.data|, offset);
    LocalIsHeaderAndData(e, st, header[..]);
  }

  /** The whole archive, for entries of any number and size. */
  method WriteArchive(entries: seq<Entry>, st: Stamp) returns (archive: array<Byte>)
    ensures fresh(archive) && archive[..] == Archive(entries, st)
  {
    var table := Crc.BuildTable();
    var locals: seq<seq<Byte>>, centrals: seq<seq<Byte>>, offset: nat := [], [], 0;
    ghost var ls, cs := Locals(entries, st), Centrals(entries, st);
    for i := 0 to |entries|
      invariant Written(ls, cs, i, locals, centrals, offset) && TableBuilt(table)
    {
      var header, central := Records(entries[i], st, offset, table);
      PartsAt(entries, st, ls, cs, i, offset);
      WrittenMore(ls, cs, i, locals, centrals, offset, header[..], entries[i].data, central[..]);
      locals := locals + [header[..], entries[i].data];
      centrals := centrals + [central[..]];
      offset := offset + header.Length + |entries[i].data|;
    }
    assert centrals == cs;
    var directory := ConcatParts(centrals);
    var end := EndOfDirectory(|entries|, directory.Length, offset);
    WrittenAll(ls, cs, locals, offset, directory[..], end[..]);
    archive := ConcatParts(locals + [directory[..], end[..]]);
  }
}
