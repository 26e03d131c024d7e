/**
 * The table-driven checksum and the bit-by-bit one it speeds up (section 8 of RFC 1952).
 * The source's numbers are 32-bit words, here bit vectors.
 */
module Crc {
  const POLYNOMIAL: bv32 := 0xedb88320

  /** One step of the register: out goes the low bit, and if it was set in comes the polynomial. */
  function Shift(c: bv32): bv32 {
    if c & 1 == 1 then POLYNOMIAL ^ (c >> 1) else c >> 1
  }

  function Shift2(c: bv32): bv32 {
    Shift(Shift(c))
  }

  function Shift4(c: bv32): bv32 {
    Shift2(Shift2(c))
  }

  function Shift8(c: bv32): bv32 {
    Shift4(Shift4(c))
  }

  function ShiftBy(c: bv32, k: nat): bv32 {
    if k == 0 then c else Shift(ShiftBy(c, k - 1))
  }

  lemma TwoMore(c: bv32, k: nat)
    ensures ShiftBy(c, k + 2) == Shift2(ShiftBy(c, k))
  {
    assert ShiftBy(c, k + 1) == Shift(ShiftBy(c, k));
  }

  lemma EightSteps(c: bv32)
    ensures ShiftBy(c, 8) == Shift8(c)
  {
    TwoMore(c, 0);
    TwoMore(c, 2);
    TwoMore(c, 4);
    TwoMore(c, 6);
  }

  /** A byte goes into the register at its low end, and eight steps follow. */
  function Register(c: bv32, data: seq<bv8>): bv32 {
    if data == [] then c
    else Shift8(Register(c, data[..|data| - 1]) ^ (data[|data| - 1] as bv32))
  }

  function Checksum(data: seq<bv8>): bv32 {
    Register(0xffffffff, data) ^ 0xffffffff
  }

  // ---- The source's form ------------------------------------------------------------

  method BuildTable() returns (table: array<bv32>)
    ensures table.Length == 256 && fresh(table)
    ensures forall n :: 0 <= n < 256 ==> table[n] == Shift8(n as bv32)
  {
    table := new bv32[256];
    for n := 0 to 256
      invariant forall m :: 0 <= m < n ==> table[m] == Shift8(m as bv32)
    {
      var c := n as bv32;
      for k := 0 to 8
        invariant c == ShiftBy(n as bv32, k)
      {
        c := if c & 1 == 1 then POLYNOMIAL ^ (c >> 1) else c >> 1;
      }
      EightSteps(n as bv32);
      table[n] := c;
    }
  }

  method Crc32(table: array<bv32>, data: seq<bv8>) returns (checksum: bv32)
    requires table.Length == 256 && forall n :: 0 <= n < 256 ==> table[n] == Shift8(n as bv32)
    ensures checksum == Checksum(data)
  {
    var crc := Fold(table, 0xffffffff, data);
    checksum := crc ^ 0xffffffff;
  }

  method Fold(table: array<bv32>, start: bv32, data: seq<bv8>) returns (crc: bv32)
    requires table.Length == 256 && forall n :: 0 <= n < 256 ==> table[n] == Shift8(n as bv32)
    ensures crc == Register(start, data)
  {
    crc := start;
    for i := 0 to |data|
      invariant crc == Register(start, data[..i])
    {
      crc := FoldByte(table, crc, data[i]);
      RegisterMore(start, data, i);
    }
    assert data[..|data|] == data;
  }

  method FoldByte(table: array<bv32>, crc: bv32, b: bv8) returns (next: bv32)
    requires table.Length == 256 && forall n :: 0 <= n < 256 ==> table[n] == Shift8(n as bv32)
    ensures next == Shift8(crc ^ (b as bv32))
  {
    var x := crc ^ (b as bv32);
    Masked(x);
    var entry := Lookup(table, x & 0xff);
    ghost var e, x' := ByteStep(crc, b, x);
    next := entry ^ (crc >> 8);
  }

  method Lookup(table: array<bv32>, index: bv32) returns (entry: bv32)
    requires table.Length == 256 && forall n :: 0 <= n < 256 ==> table[n] == Shift8(n as bv32)
    requires index <= 0xff
    ensures entry == Shift8(index)
  {
    LowByte(index);
    entry := table[index as int];
  }

  lemma RegisterMore(c: bv32, data: seq<bv8>, i: nat)
    requires i < |data|
    ensures Register(c, data[..i + 1]) == Shift8(Register(c, data[..i]) ^ (data[i] as bv32))
  {
    assert data[..i + 1][..i] == data[..i];
  }

  lemma Masked(x: bv32)
    ensures x & 0xff <= 0xff
  { }

  lemma LowByte(y: bv32)
    requires y <= 0xff
    ensures 0 <= y as int < 256 && (y as int) as bv32 == y
  { }

  // ---- Linearity --------------------------------------------------------------------

  lemma HalvesXor(a: bv32, b: bv32)
    ensures (a ^ b) >> 1 == (a >> 1) ^ (b >> 1)
    ensures (a ^ b) & 1 == (a & 1) ^ (b & 1)
  { }

  lemma LowBit(a: bv32)
    ensures a & 1 == 0 || a & 1 == 1
  { }

  lemma XorCancels(p: bv32, x: bv32, y: bv32)
    ensures (p ^ x) ^ (p ^ y) == x ^ y && (p ^ x) ^ y == p ^ (x ^ y) && x ^ (p ^ y) == p ^ (x ^ y)
  { }

  /** Stated over the values passed from step to step. */
  lemma OneStep(a: bv32, b: bv32, x: bv32) returns (a': bv32, b': bv32, x': bv32)
    requires x == a ^ b
    ensures a' == Shift(a) && b' == Shift(b) && x' == Shift(x) && x' == a' ^ b'
  {
    HalvesXor(a, b);
    LowBit(a);
    LowBit(b);
    XorCancels(POLYNOMIAL, a >> 1, b >> 1);
    a', b', x' := Shift(a), Shift(b), Shift(x);
  }

  lemma TwoSteps(a: bv32, b: bv32, x: bv32) returns (a': bv32, b': bv32, x': bv32)
    requires x == a ^ b
    ensures a' == Shift2(a) && b' == Shift2(b) && x' == Shift2(x) && x' == a' ^ b'
  {
    a', b', x' := OneStep(a, b, x);
    a', b', x' := OneStep(a', b', x');
  }

  lemma FourSteps(a: bv32, b: bv32, x: bv32) returns (a': bv32, b': bv32, x': bv32)
    requires x == a ^ b
    ensures a' == Shift4(a) && b' == Shift4(b) && x' == Shift4(x) && x' == a' ^ b'
  {
    a', b', x' := TwoSteps(a, b, x);
    a', b', x' := TwoSteps(a', b', x');
  }

  lemma EightStepsLinear(a: bv32, b: bv32, x: bv32) returns (a': bv32, b': bv32, x': bv32)
    requires x == a ^ b
    ensures a' == Shift8(a) && b' == Shift8(b) && x' == Shift8(x) && x' == a' ^ b'
  {
    a', b', x' := FourSteps(a, b, x);
    a', b', x' := FourSteps(a', b', x');
  }

  lemma EvenHalves(c: bv32)
    ensures c & 3 == 0 ==> c & 1 == 0 && (c >> 1) & 1 == 0
    ensures (c >> 1) >> 1 == c >> 2
  { }

  lemma EvenQuarters(c: bv32)
    ensures c & 15 == 0 ==> c & 3 == 0 && (c >> 2) & 3 == 0
    ensures (c >> 2) >> 2 == c >> 4
  { }

  lemma EvenBytes(c: bv32)
    ensures c & 0xff == 0 ==> c & 15 == 0 && (c >> 4) & 15 == 0
    ensures (c >> 4) >> 4 == c >> 8
  { }

  lemma ShiftEven(c: bv32)
    requires c & 1 == 0
    ensures Shift(c) == c >> 1
  { }

  lemma Shift2Even(c: bv32)
    requires c & 3 == 0
    ensures Shift2(c) == c >> 2
  {
    EvenHalves(c);
    ShiftEven(c);
    ShiftEven(c >> 1);
  }

  lemma Shift4Even(c: bv32)
    requires c & 15 == 0
    ensures Shift4(c) == c >> 4
  {
    EvenQuarters(c);
    Shift2Even(c);
    Shift2Even(c >> 2);
  }

  lemma ShiftHigh(c: bv32, c': bv32)
    requires c & 0xff == 0 && c' == Shift8(c)
    ensures c' == c >> 8
  {
    EvenBytes(c);
    Shift4Even(c);
    Shift4Even(c >> 4);
  }

  lemma SplitLow(x: bv32)
    ensures x == (x & 0xff) ^ (x & 0xffffff00)
    ensures (x & 0xffffff00) >> 8 == x >> 8 && (x & 0xffffff00) & 0xff == 0
  { }

  lemma ByteGone(c: bv32, b: bv8)
    ensures (c ^ (b as bv32)) >> 8 == c >> 8
  { }

  lemma JoinShift(x: bv32, low: bv32, high: bv32) returns (entry: bv32, x': bv32)
    requires x == low ^ high && high & 0xff == 0
    ensures entry == Shift8(low) && x' == Shift8(x) && x' == entry ^ (high >> 8)
  {
    var high';
    entry, high', x' := EightStepsLinear(low, high, x);
    ShiftHigh(high, high');
  }

  /** Eight steps at once: the low byte through the table, the rest shifted down. */
  lemma ByteStep(c: bv32, b: bv8, x: bv32) returns (entry: bv32, x': bv32)
    requires x == c ^ (b as bv32)
    ensures entry == Shift8(x & 0xff) && x' == Shift8(x) && x' == entry ^ (c >> 8)
  {
    ByteGone(c, b);
    SplitLow(x);
    entry, x' := JoinShift(x, x & 0xff, x & 0xffffff00);
  }
}
