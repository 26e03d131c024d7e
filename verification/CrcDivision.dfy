/**
 * What the checksum means: the remainder of dividing the message, as a polynomial over the
 * two-element field, by the standard's generator. Bit sequences start with the highest power.
 */
module CrcDivision {
  import opened Crc

  /** The generator's powers below 32, and the generator as coefficients of x^31 down to 1. */
  function Divisor(): seq<bool> {
    seq(32, i => (31 - i) in {26, 23, 22, 16, 12, 11, 10, 8, 7, 5, 4, 2, 1, 0})
  }

  /** `d` with its leading bits added to those of `e`. */
  function Plus(d: seq<bool>, e: seq<bool>): seq<bool> {
    seq(|d|, i requires 0 <= i < |d| => if i < |e| then d[i] != e[i] else d[i])
  }

  /** Long division: a leading one is cancelled by the divisor, a leading zero is dropped. */
  function Remainder(d: seq<bool>): seq<bool>
    decreases |d|
  {
    if |d| <= 32 then d
    else if d[0] then Remainder(Plus(d[1..], Divisor()))
    else Remainder(d[1..])
  }

  function Zeros(n: nat): seq<bool> {
    seq(n, i => false)
  }

  /** The low `n` bits of a word, lowest first: the lowest bit stands for the highest power. */
  function Bits(c: bv32, n: nat): seq<bool> {
    if n == 0 then [] else [c & 1 == 1] + Bits(c >> 1, n - 1)
  }

  function MessageBits(data: seq<bv8>): seq<bool> {
    if data == [] then [] else MessageBits(data[..|data| - 1]) + Bits(data[|data| - 1] as bv32, 8)
  }

  /** One message bit: the generator comes in when the bit differs from the one going out. */
  function Feed(c: bv32, bit: bool): bv32 {
    if (c & 1 == 1) != bit then POLYNOMIAL ^ (c >> 1) else c >> 1
  }

  /** The register fed one message bit at a time. */
  function Serial(c: bv32, m: seq<bool>): bv32
    decreases |m|
  {
    if m == [] then c else Serial(Feed(c, m[0]), m[1..])
  }

  // ---- Words as bit sequences -------------------------------------------------------

  lemma {:induction false} BitsLength(c: bv32, n: nat)
    ensures |Bits(c, n)| == n
  {
    if n > 0 {
      BitsLength(c >> 1, n - 1);
    }
  }

  lemma LowXor(a: bv32, b: bv32, x: bv32) returns (p: bool, q: bool, r: bool, a': bv32, b': bv32, x': bv32)
    requires x == a ^ b
    ensures p == (a & 1 == 1) && q == (b & 1 == 1) && r == (x & 1 == 1) && r == (p != q)
    ensures a' == a >> 1 && b' == b >> 1 && x' == x >> 1 && x' == a' ^ b'
  {
    p, q, r := a & 1 == 1, b & 1 == 1, x & 1 == 1;
    a', b', x' := a >> 1, b >> 1, x >> 1;
  }

  lemma BitsCons(c: bv32, n: nat, low: bool, rest: bv32)
    requires n > 0 && low == (c & 1 == 1) && rest == c >> 1
    ensures Bits(c, n) == [low] + Bits(rest, n - 1)
  { }

  lemma PlusCons(p: bool, ps: seq<bool>, q: bool, qs: seq<bool>)
    ensures Plus([p] + ps, [q] + qs) == [p != q] + Plus(ps, qs)
  { }

  lemma {:induction false} BitsXor(a: bv32, b: bv32, x: bv32, n: nat) returns (p: seq<bool>, q: seq<bool>, r: seq<bool>)
    requires x == a ^ b
    ensures p == Bits(a, n) && q == Bits(b, n) && r == Bits(x, n) && |p| == |q| == |r| == n && r == Plus(p, q)
    decreases n
  {
    p, q, r := [], [], [];
    if n > 0 {
      var u, v, w, a', b', x' := LowXor(a, b, x);
      p, q, r := BitsXor(a', b', x', n - 1);
      PlusCons(u, p, v, q);
      BitsCons(a, n, u, a');
      BitsCons(b, n, v, b');
      BitsCons(x, n, w, x');
      p, q, r := [u] + p, [v] + q, [w] + r;
    }
  }

  // ---- Shifting out all 32 bits -----------------------------------------------------

  function Down(c: bv32, m: nat): bv32 {
    if m == 0 then c else Down(c >> 1, m - 1)
  }

  lemma {:induction false} DownTwice(c: bv32, m: nat, n: nat) returns (d: bv32)
    ensures d == Down(c, m) && Down(c, m + n) == Down(d, n)
    decreases m
  {
    d := c;
    if m > 0 {
      d := DownTwice(c >> 1, m - 1, n);
    }
  }

  lemma Quarter(c: bv32, d: bv32, e: bv32)
    requires d == c >> 1 && e == d >> 1
    ensures e == c >> 2
  { }

  lemma Sixteenth(c: bv32, d: bv32, e: bv32)
    requires d == c >> 2 && e == d >> 2
    ensures e == c >> 4
  { }

  lemma ByteDown(c: bv32, d: bv32, e: bv32)
    requires d == c >> 4 && e == d >> 4
    ensures e == c >> 8
  { }

  lemma AllDown(c: bv32, d: bv32, e: bv32, f: bv32, g: bv32)
    requires d == c >> 8 && e == d >> 8 && f == e >> 8 && g == f >> 8
    ensures g == 0
  { }

  lemma DownBy2(c: bv32) returns (d: bv32)
    ensures d == Down(c, 2) && d == c >> 2
  {
    d := c >> 1;
    Quarter(c, d, d >> 1);
    var e := DownTwice(c, 1, 1);
    d := d >> 1;
  }

  lemma DownBy4(c: bv32) returns (d: bv32)
    ensures d == Down(c, 4) && d == c >> 4
  {
    var a := DownBy2(c);
    d := DownBy2(a);
    var e := DownTwice(c, 2, 2);
    Sixteenth(c, a, d);
  }

  lemma DownBy8(c: bv32) returns (d: bv32)
    ensures d == Down(c, 8) && d == c >> 8
  {
    var a := DownBy4(c);
    d := DownBy4(a);
    var e := DownTwice(c, 4, 4);
    ByteDown(c, a, d);
  }

  lemma DownBy32(c: bv32) returns (d: bv32)
    ensures d == Down(c, 32) && d == 0
  {
    var a := DownBy8(c);
    var b := DownBy8(a);
    var e := DownBy8(b);
    d := DownBy8(e);
    var x := DownTwice(c, 8, 24);
    x := DownTwice(a, 8, 16);
    x := DownTwice(b, 8, 8);
    AllDown(c, a, b, e, d);
  }

  /** Bits taken in two parts. */
  lemma {:induction false} BitsSplit(c: bv32, m: nat, n: nat) returns (rest: bv32)
    ensures rest == Down(c, m) && Bits(c, m + n) == Bits(c, m) + Bits(rest, n)
    decreases m
  {
    rest := c;
    if m > 0 {
      rest := BitsSplit(c >> 1, m - 1, n);
      assert [c & 1 == 1] + (Bits(c >> 1, m - 1) + Bits(rest, n)) == [c & 1 == 1] + Bits(c >> 1, m - 1) + Bits(rest, n);
    }
  }

  /** A shifted word: its bits one place on, and a zero. */
  lemma BitsOfHalf(c: bv32, low: bool, half: bv32) returns (b: seq<bool>, h: seq<bool>)
    requires low == (c & 1 == 1) && half == c >> 1
    ensures b == Bits(c, 32) && h == Bits(half, 32) && |b| == |h| == 32 && b[0] == low && h == b[1..] + [false]
  {
    b, h := Bits(c, 32), Bits(half, 32);
    BitsLength(c, 32);
    BitsLength(half, 32);
    var d := DownBy32(c);
    var rest := BitsSplit(c, 32, 1);
    BitsCons(c, 33, low, half);
    LastBit(d);
    assert [low] + h == b + [false];
    assert ([low] + h)[1..] == h;
  }

  lemma LastBit(d: bv32)
    requires d == 0
    ensures Bits(d, 1) == [false]
  {
    BitsCons(d, 1, false, d >> 1);
  }

  // ---- Division ---------------------------------------------------------------------

  /** Eight bits of a word, spelled out by the words met on the way. */
  lemma BitsOfByte(c: bv32, words: seq<bv32>, bits: seq<bool>, n: nat)
    requires |words| == 9 && |bits| == 8 && words[0] == c && n >= 8
    requires forall i :: 0 <= i < 8 ==> words[i + 1] == words[i] >> 1 && bits[i] == (words[i] & 1 == 1)
    ensures Bits(c, n) == bits + Bits(words[8], n - 8)
  {
    BitsFrom(words, bits, 8, n);
    assert words[..] == words;
  }

  lemma {:induction false} BitsFrom(words: seq<bv32>, bits: seq<bool>, k: nat, n: nat)
    requires k <= |bits| && |words| == |bits| + 1 && n >= k
    requires forall i :: 0 <= i < |bits| ==> words[i + 1] == words[i] >> 1 && bits[i] == (words[i] & 1 == 1)
    ensures Bits(words[0], n) == bits[..k] + Bits(words[k], n - k)
  {
    if k > 0 {
      BitsFrom(words, bits, k - 1, n);
      BitsCons(words[k - 1], n - k + 1, bits[k - 1], words[k]);
      assert bits[..k] == bits[..k - 1] + [bits[k - 1]];
    } else {
      assert bits[..0] == [];
    }
  }

  const POWERS_31_TO_24: seq<bool> := [false, false, false, false, false, true, false, false]
  const POWERS_23_TO_16: seq<bool> := [true, true, false, false, false, false, false, true]
  const POWERS_15_TO_8: seq<bool> := [false, false, false, true, true, true, false, true]
  const POWERS_7_TO_0: seq<bool> := [true, false, true, true, false, true, true, true]

  lemma FirstByte()
    ensures Bits(0xedb88320, 32) == POWERS_31_TO_24 + Bits(0x00edb883, 24)
  {
    BitsOfByte(0xedb88320,
               [0xedb88320, 0x76dc4190, 0x3b6e20c8, 0x1db71064, 0x0edb8832, 0x076dc419, 0x03b6e20c,
                0x01db7106, 0x00edb883],
               POWERS_31_TO_24, 32);
  }

  lemma SecondByte()
    ensures Bits(0x00edb883, 24) == POWERS_23_TO_16 + Bits(0x0000edb8, 16)
  {
    BitsOfByte(0x00edb883,
               [0x00edb883, 0x0076dc41, 0x003b6e20, 0x001db710, 0x000edb88, 0x00076dc4, 0x0003b6e2,
                0x0001db71, 0x0000edb8],
               POWERS_23_TO_16, 24);
  }

  lemma ThirdByte()
    ensures Bits(0x0000edb8, 16) == POWERS_15_TO_8 + Bits(0x000000ed, 8)
  {
    BitsOfByte(0x0000edb8,
               [0x0000edb8, 0x000076dc, 0x00003b6e, 0x00001db7, 0x00000edb, 0x0000076d, 0x000003b6,
                0x000001db, 0x000000ed],
               POWERS_15_TO_8, 16);
  }

  lemma FourthByte()
    ensures Bits(0x000000ed, 8) == POWERS_7_TO_0 + Bits(0, 0)
  {
    BitsOfByte(0x000000ed,
               [0x000000ed, 0x00000076, 0x0000003b, 0x0000001d, 0x0000000e, 0x00000007, 0x00000003,
                0x00000001, 0x00000000],
               POWERS_7_TO_0, 8);
  }

  /** The word the source shifts by is the generator, lowest bit for the highest power. */
  lemma DivisorIsPolynomial() returns (bits: seq<bool>)
    ensures bits == Divisor() && bits == Bits(POLYNOMIAL, 32) && |bits| == 32
  {
    bits := POWERS_31_TO_24 + (POWERS_23_TO_16 + (POWERS_15_TO_8 + POWERS_7_TO_0));
    FirstByte();
    SecondByte();
    ThirdByte();
    FourthByte();
    assert POWERS_7_TO_0 + Bits(0, 0) == POWERS_7_TO_0;
  }

  lemma PlusZeros(d: seq<bool>, e: seq<bool>)
    requires |d| >= |e| > 0
    ensures Plus(d, e)[0] == (d[0] != e[0])
    ensures Plus(d, e)[1..] == Plus(d[1..], e[1..] + [false])
  { }

  lemma PlusTwice(d: seq<bool>, e: seq<bool>, f: seq<bool>)
    requires |e| == |f| <= |d|
    ensures Plus(Plus(d, e), f) == Plus(d, Plus(f, e))
  { }

  lemma FeedBit(c: bv32, bit: bool) returns (low: bool, half: bv32, next: bv32)
    ensures low == (c & 1 == 1) && half == c >> 1 && next == Feed(c, bit)
    ensures next == if low != bit then POLYNOMIAL ^ half else half
  {
    low, half, next := c & 1 == 1, c >> 1, Feed(c, bit);
  }

  lemma DivideOnce(d: seq<bool>)
    requires |d| > 32
    ensures Remainder(d) == Remainder(if d[0] then Plus(d[1..], Divisor()) else d[1..])
  { }

  lemma SerialCons(c: bv32, m: seq<bool>, next: bv32)
    requires m != [] && next == Feed(c, m[0])
    ensures Serial(c, m) == Serial(next, m[1..])
  { }

  lemma NothingToDivide(b: seq<bool>)
    requires |b| == 32
    ensures Remainder(Plus([] + Zeros(32), b)) == b
  {
    assert Plus([] + Zeros(32), b) == b;
  }

  lemma OneDivision(c: bv32, m: seq<bool>, low: bool, half: bv32, next: bv32) returns (b: seq<bool>, n: seq<bool>)
    requires m != [] && low == (c & 1 == 1) && half == c >> 1
    requires next == if low != m[0] then POLYNOMIAL ^ half else half
    ensures b == Bits(c, 32) && n == Bits(next, 32)
    ensures Remainder(Plus(m + Zeros(32), b)) == Remainder(Plus(m[1..] + Zeros(32), n))
  {
    var d, e := m + Zeros(32), m[1..] + Zeros(32);
    var h;
    b, h := BitsOfHalf(c, low, half);
    n := h;
    PlusZeros(d, b);
    assert d[1..] == e;
    DivideOnce(Plus(d, b));
    if low != m[0] {
      var poly := DivisorIsPolynomial();
      var p, q;
      p, q, n := BitsXor(POLYNOMIAL, half, next, 32);
      PlusTwice(e, h, poly);
    }
  }

  /** The register is the running remainder: fed the message it divides it out bit by bit. */
  lemma {:induction false} SerialDivides(c: bv32, m: seq<bool>) returns (b: seq<bool>, r: bv32, rem: seq<bool>)
    ensures b == Bits(c, 32) && r == Serial(c, m) && rem == Bits(r, 32)
    ensures Remainder(Plus(m + Zeros(32), b)) == rem
    decreases |m|
  {
    if m == [] {
      b, r, rem := Bits(c, 32), c, Bits(c, 32);
      BitsLength(c, 32);
      NothingToDivide(b);
    } else {
      var low, half, next := FeedBit(c, m[0]);
      SerialCons(c, m, next);
      var n, n';
      b, n := OneDivision(c, m, low, half, next);
      n', r, rem := SerialDivides(next, m[1..]);
    }
  }

  // ---- Bytes ------------------------------------------------------------------------

  /** Of a byte folded in at once, `b` is what is still to be fed and `c` the register so far. */
  lemma FeedOne(c: bv32, b: bv32, x: bv32) returns (c': bv32, b': bv32, x': bv32)
    requires x == c ^ b
    ensures c' == Feed(c, b & 1 == 1) && b' == b >> 1 && x' == Shift(x) && x' == c' ^ b'
  {
    HalvesXor(c, b);
    LowBit(c);
    LowBit(b);
    XorCancels(POLYNOMIAL, c >> 1, b >> 1);
    c', b', x' := Feed(c, b & 1 == 1), b >> 1, Shift(x);
  }

  lemma SerialOfBits(c: bv32, b: bv32, n: nat, low: bool, c': bv32, b': bv32)
    requires n > 0 && low == (b & 1 == 1) && c' == Feed(c, low) && b' == b >> 1
    ensures Serial(c, Bits(b, n)) == Serial(c', Bits(b', n - 1))
  {
    BitsCons(b, n, low, b');
    SerialCons(c, Bits(b, n), c');
    assert Bits(b, n)[1..] == Bits(b', n - 1);
  }

  lemma FeedTwo(c: bv32, b: bv32, x: bv32, n: nat) returns (c': bv32, b': bv32, x': bv32)
    requires x == c ^ b && n >= 2
    ensures Serial(c, Bits(b, n)) == Serial(c', Bits(b', n - 2)) && b' == b >> 2 && x' == Shift2(x) && x' == c' ^ b'
  {
    var c1, b1, x1 := FeedOne(c, b, x);
    SerialOfBits(c, b, n, b & 1 == 1, c1, b1);
    c', b', x' := FeedOne(c1, b1, x1);
    SerialOfBits(c1, b1, n - 1, b1 & 1 == 1, c', b');
    Quarter(b, b1, b');
  }

  lemma FeedFour(c: bv32, b: bv32, x: bv32, n: nat) returns (c': bv32, b': bv32, x': bv32)
    requires x == c ^ b && n >= 4
    ensures Serial(c, Bits(b, n)) == Serial(c', Bits(b', n - 4)) && b' == b >> 4 && x' == Shift4(x) && x' == c' ^ b'
  {
    var c2, b2, x2 := FeedTwo(c, b, x, n);
    c', b', x' := FeedTwo(c2, b2, x2, n - 2);
    Sixteenth(b, b2, b');
  }

  lemma ByteSpent(b: bv32, d: bv32, c: bv32, x: bv32)
    requires b <= 0xff && d == (b >> 4) >> 4 && x == c ^ d
    ensures x == c
  { }

  /** Feeding the eight bits of a byte one by one is folding the byte in and shifting eight times. */
  lemma FeedByte(c: bv32, b: bv32, x: bv32) returns (x': bv32)
    requires x == c ^ b && b <= 0xff
    ensures x' == Shift8(x) && x' == Serial(c, Bits(b, 8))
  {
    var c4, b4, x4 := FeedFour(c, b, x, 8);
    var c8, b8;
    c8, b8, x' := FeedFour(c4, b4, x4, 4);
    ByteSpent(b, b8, c8, x');
    assert Bits(b8, 0) == [];
    assert Serial(c8, []) == c8;
  }

  lemma {:induction false} SerialAppend(c: bv32, m: seq<bool>, n: seq<bool>) returns (d: bv32)
    ensures d == Serial(c, m) && Serial(c, m + n) == Serial(d, n)
    decreases |m|
  {
    d := c;
    if m == [] {
      assert m + n == n;
    } else {
      var low, half, next := FeedBit(c, m[0]);
      SerialCons(c, m, next);
      SerialCons(c, m + n, next);
      assert (m + n)[1..] == m[1..] + n;
      d := SerialAppend(next, m[1..], n);
    }
  }

  lemma SmallByte(b: bv8)
    ensures b as bv32 <= 0xff
  { }

  lemma Last(data: seq<bv8>) returns (front: seq<bv8>, b: bv32)
    requires data != []
    ensures front == data[..|data| - 1] && b == data[|data| - 1] as bv32 && b <= 0xff
    ensures MessageBits(data) == MessageBits(front) + Bits(b, 8)
  {
    front, b := data[..|data| - 1], data[|data| - 1] as bv32;
    SmallByte(data[|data| - 1]);
  }

  lemma RegisterSnoc(c: bv32, data: seq<bv8>, d: bv32, b: bv32, x: bv32, r: bv32)
    requires data != [] && d == Register(c, data[..|data| - 1]) && b == data[|data| - 1] as bv32
    requires x == d ^ b && r == Shift8(x)
    ensures r == Register(c, data)
  { }

  /** The byte-at-a-time register is the bit-at-a-time one. */
  lemma {:induction false} RegisterIsSerial(c: bv32, data: seq<bv8>) returns (r: bv32)
    ensures r == Register(c, data) && r == Serial(c, MessageBits(data))
    decreases |data|
  {
    r := c;
    if data != [] {
      var front, b := Last(data);
      var d := RegisterIsSerial(c, front);
      r := FeedByte(d, b, d ^ b);
      RegisterSnoc(c, data, d, b, d ^ b, r);
      var e := SerialAppend(c, MessageBits(front), Bits(b, 8));
    }
  }

  /** The checksum before its last complement, as bits. */
  ghost function RegisterBits(data: seq<bv8>): seq<bool> {
    Bits(Checksum(data) ^ 0xffffffff, 32)
  }

  lemma ComplementTwice(r: bv32)
    ensures (r ^ 0xffffffff) ^ 0xffffffff == r
  { }

  /**
   * For every byte sequence: complement the message's first 32 bits (zeros following the
   * message), divide by the generator, and the remainder is the complement of the checksum.
   */
  lemma ChecksumIsRemainder(data: seq<bv8>)
    ensures Remainder(Plus(MessageBits(data) + Zeros(32), Bits(0xffffffff, 32))) == RegisterBits(data)
  {
    var r := RegisterIsSerial(0xffffffff, data);
    ComplementTwice(r);
    var b, r', rem := SerialDivides(0xffffffff, MessageBits(data));
  }

  // ---- What the checksum detects ----------------------------------------------------

  lemma ShiftInjective(a: bv32, b: bv32, a': bv32, b': bv32)
    requires a' == Shift(a) && b' == Shift(b) && a != b
    ensures a' != b'
  { }

  lemma Shift2Injective(a: bv32, b: bv32) returns (a': bv32, b': bv32)
    requires a != b
    ensures a' == Shift2(a) && b' == Shift2(b) && a' != b'
  {
    a', b' := Shift(a), Shift(b);
    ShiftInjective(a, b, a', b');
    var x, y := Shift(a'), Shift(b');
    ShiftInjective(a', b', x, y);
    a', b' := x, y;
  }

  lemma Shift8Injective(a: bv32, b: bv32) returns (a': bv32, b': bv32)
    requires a != b
    ensures a' == Shift8(a) && b' == Shift8(b) && a' != b'
  {
    a', b' := Shift2Injective(a, b);
    a', b' := Shift2Injective(a', b');
    a', b' := Shift2Injective(a', b');
    a', b' := Shift2Injective(a', b');
  }

  lemma XorInjective(a: bv32, b: bv32, x: bv32, a': bv32, b': bv32)
    requires a != b && a' == a ^ x && b' == b ^ x
    ensures a' != b'
  { }

  lemma BytesDiffer(x: bv8, y: bv8, x': bv32, y': bv32)
    requires x != y && x' == x as bv32 && y' == y as bv32
    ensures x' != y'
  { }

  /** Registers that differ stay different over the same bytes. */
  lemma {:induction false} DifferenceStays(a: bv32, b: bv32, data: seq<bv8>) returns (r: bv32, s: bv32)
    requires a != b
    ensures r == Register(a, data) && s == Register(b, data) && r != s
    decreases |data|
  {
    r, s := a, b;
    if data != [] {
      var front, x := Last(data);
      var c, d := DifferenceStays(a, b, front);
      XorInjective(c, d, x, c ^ x, d ^ x);
      r, s := Shift8Injective(c ^ x, d ^ x);
      RegisterSnoc(a, data, c, x, c ^ x, r);
      RegisterSnoc(b, data, d, x, d ^ x, s);
    }
  }

  lemma LastOfSum<T>(d: seq<T>, e: seq<T>)
    requires e != []
    ensures d + e != [] && (d + e)[..|d + e| - 1] == d + e[..|e| - 1] && (d + e)[|d + e| - 1] == e[|e| - 1]
  { }

  lemma {:induction false} RegisterAppend(c: bv32, d: seq<bv8>, e: seq<bv8>, r: bv32) returns (all: bv32)
    requires r == Register(c, d)
    ensures all == Register(c, d + e) && all == Register(r, e)
    decreases |e|
  {
    if e == [] {
      assert d + e == d;
      all := r;
    } else {
      var front, b := Last(e);
      var c' := RegisterAppend(c, d, front, r);
      all := Shift8(c' ^ b);
      LastOfSum(d, e);
      RegisterSnoc(c, d + e, c', b, c' ^ b, all);
      RegisterSnoc(r, e, c', b, c' ^ b, all);
    }
  }

  lemma XorCommutes(a: bv32, x: bv32, b: bv32)
    requires b == a ^ x
    ensures b == x ^ a
  { }

  lemma ChecksumOf(d: seq<bv8>, r: bv32, k: bv32)
    requires r == Register(0xffffffff, d) && k == r ^ 0xffffffff
    ensures Checksum(d) == k
  { }

  lemma ChecksumsDiffer(r: bv32, s: bv32, d: seq<bv8>, e: seq<bv8>)
    requires r != s && r == Register(0xffffffff, d) && s == Register(0xffffffff, e)
    ensures Checksum(d) != Checksum(e)
  {
    var k, l := r ^ 0xffffffff, s ^ 0xffffffff;
    XorInjective(r, s, 0xffffffff, k, l);
    ChecksumOf(d, r, k);
    ChecksumOf(e, s, l);
  }

  lemma RegisterOneMore(c: bv32, d: seq<bv8>, x: bv8, r: bv32) returns (b: bv32, r': bv32)
    requires r == Register(c, d)
    ensures b == x as bv32 && r' == Register(c, d + [x]) && r' == Shift8(r ^ b)
  {
    b := x as bv32;
    r' := Shift8(r ^ b);
    assert (d + [x])[..|d|] == d;
    RegisterSnoc(c, d + [x], r, b, r ^ b, r');
  }

  /** A change to one byte, whichever it is and whatever it becomes, changes the checksum. */
  lemma OneByteChangeDetected(before: seq<bv8>, x: bv8, y: bv8, after: seq<bv8>)
    requires x != y
    ensures Checksum(before + [x] + after) != Checksum(before + [y] + after)
  {
    var c := Register(0xffffffff, before);
    var x', a := RegisterOneMore(0xffffffff, before, x, c);
    var y', b := RegisterOneMore(0xffffffff, before, y, c);
    BytesDiffer(x, y, x', y');
    XorCommutes(c, x', c ^ x');
    XorCommutes(c, y', c ^ y');
    XorInjective(x', y', c, c ^ x', c ^ y');
    var a', b' := Shift8Injective(c ^ x', c ^ y');
    var r, s := DifferenceStays(a, b, after);
    var p := RegisterAppend(0xffffffff, before + [x], after, a);
    var q := RegisterAppend(0xffffffff, before + [y], after, b);
    ChecksumsDiffer(r, s, before + [x] + after, before + [y] + after);
  }
}
