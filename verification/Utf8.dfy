/** Text as UTF-8 bytes (RFC 3629). A character here is a Unicode scalar value. */
module Utf8 {
  import opened Shared

  type Byte = x: int | 0 <= x < 256

  function EncodeChar(c: char): (bytes: seq<Byte>)
    ensures 1 <= |bytes| <= 4
  {
    var n := c as int;
    if n < 0x80 then [n]
    else if n < 0x800 then [0xC0 + n / 0x40, 0x80 + n % 0x40]
    else if n < 0x10000 then [0xE0 + n / 0x1000, 0x80 + n / 0x40 % 0x40, 0x80 + n % 0x40]
    else [0xF0 + n / 0x40000, 0x80 + n / 0x1000 % 0x40, 0x80 + n / 0x40 % 0x40, 0x80 + n % 0x40]
  }

  function Encode(s: string): seq<Byte> {
    if s == [] then [] else EncodeChar(s[0]) + Encode(s[1..])
  }

  predicate Continues(b: Byte) {
    0x80 <= b < 0xC0
  }

  /** How many bytes a first byte announces; none when it cannot be a first byte. */
  function Announced(b: Byte): nat {
    if b < 0x80 then 1 else if b < 0xC0 then 0 else if b < 0xE0 then 2
    else if b < 0xF0 then 3 else if b < 0xF8 then 4 else 0
  }

  function Scalar(n: int): Option<char> {
    if 0 <= n < 0xD800 || 0xE000 <= n < 0x110000 then Some(n as char) else None
  }

  function Value(bytes: seq<Byte>): int {
    var at := (i: int) => if 0 <= i < |bytes| then bytes[i] as int else 0;
    match |bytes|
    case 1 => at(0)
    case 2 => (at(0) - 0xC0) * 0x40 + (at(1) - 0x80)
    case 3 => (at(0) - 0xE0) * 0x1000 + (at(1) - 0x80) * 0x40 + (at(2) - 0x80)
    case 4 => (at(0) - 0xF0) * 0x40000 + (at(1) - 0x80) * 0x1000 + (at(2) - 0x80) * 0x40 + (at(3) - 0x80)
    case _ => -1
  }

  predicate Shortest(n: int, length: nat) {
    match length
    case 1 => true
    case 2 => n >= 0x80
    case 3 => n >= 0x800
    case _ => n >= 0x10000
  }

  /** One character from exactly these bytes; overlong forms, surrogates and stray bytes are refused. */
  function DecodeChar(bytes: seq<Byte>): Option<char> {
    if bytes == [] || Announced(bytes[0]) != |bytes| then None
    else if exists i :: 1 <= i < |bytes| && !Continues(bytes[i]) then None
    else if !Shortest(Value(bytes), |bytes|) then None
    else Scalar(Value(bytes))
  }

  function Decode(bytes: seq<Byte>): Option<string> {
    if bytes == [] then Some([])
    else
      var n := Announced(bytes[0]);
      if n == 0 || n > |bytes| then None
      else
        var first, rest := DecodeChar(bytes[..n]), Decode(bytes[n..]);
        if first.None? || rest.None? then None else Some([first.value] + rest.value)
  }

  lemma Digits(n: nat)
    ensures n == n / 0x40 * 0x40 + n % 0x40
    ensures n / 0x40 == n / 0x1000 * 0x40 + n / 0x40 % 0x40
    ensures n / 0x1000 == n / 0x40000 * 0x40 + n / 0x1000 % 0x40
  { }

  lemma ValueOfEncoding(c: char)
    ensures Value(EncodeChar(c)) == c as int
  {
    Digits(c as int);
  }

  lemma CharRoundTrip(c: char)
    ensures DecodeChar(EncodeChar(c)) == Some(c)
  {
    ValueOfEncoding(c);
    AnnouncesItself(c);
    EncodingContinues(c);
  }

  lemma EncodingContinues(c: char)
    ensures forall i :: 1 <= i < |EncodeChar(c)| ==> Continues(EncodeChar(c)[i])
    ensures Shortest(c as int, |EncodeChar(c)|)
  { }

  lemma AnnouncesItself(c: char)
    ensures Announced(EncodeChar(c)[0]) == |EncodeChar(c)|
  { }

  /** Decoding what was encoded gives the text back. */
  lemma {:induction false} RoundTrip(s: string)
    ensures Decode(Encode(s)) == Some(s)
  {
    if s != [] {
      var b, e := EncodeChar(s[0]), Encode(s);
      AnnouncesItself(s[0]);
      CharRoundTrip(s[0]);
      RoundTrip(s[1..]);
      assert e[..|b|] == b && e[|b|..] == Encode(s[1..]);
      assert [s[0]] + s[1..] == s;
    }
  }
}
