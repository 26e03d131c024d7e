/** Percent-encoding of one URL component (section 2.1 of RFC 3986, over UTF-8). */
module Percent {
  import opened Shared
  import opened Utf8

  const UNESCAPED_MARKS := "-_.!~*'()"

  predicate Unescaped(c: char) {
    'A' <= c <= 'Z' || 'a' <= c <= 'z' || '0' <= c <= '9' || c in UNESCAPED_MARKS
  }

  function HexDigit(n: nat): char
    requires n < 16
  {
    if n < 10 then ('0' as int + n) as char else ('A' as int + n - 10) as char
  }

  function HexValue(c: char): Option<nat> {
    if '0' <= c <= '9' then Some(c as int - '0' as int)
    else if 'A' <= c <= 'F' then Some(c as int - 'A' as int + 10)
    else if 'a' <= c <= 'f' then Some(c as int - 'a' as int + 10)
    else None
  }

  function EscapeByte(b: Byte): string {
    ['%', HexDigit(b / 16), HexDigit(b % 16)]
  }

  function EscapeBytes(bytes: seq<Byte>): string {
    if bytes == [] then "" else EscapeByte(bytes[0]) + EscapeBytes(bytes[1..])
  }

  function EncodeOne(c: char): string {
    if Unescaped(c) then [c] else EscapeBytes(EncodeChar(c))
  }

  function EncodeComponent(s: string): string {
    if s == "" then "" else EncodeOne(s[0]) + EncodeComponent(s[1..])
  }

  /** The first `n` escaped bytes. */
  function ReadBytes(s: string, n: nat): Option<seq<Byte>> {
    if n == 0 then Some([])
    else if |s| < 3 || s[0] != '%' || HexValue(s[1]).None? || HexValue(s[2]).None? then None
    else
      var rest := ReadBytes(s[3..], n - 1);
      var b := HexValue(s[1]).value * 16 + HexValue(s[2]).value;
      if rest.None? || b >= 256 then None else Some([b] + rest.value)
  }

  /** Nothing when an escape is malformed or the bytes are not UTF-8. */
  function DecodeComponent(s: string): Option<string>
    decreases |s|
  {
    if s == "" then Some("")
    else if s[0] != '%' then
      var rest := DecodeComponent(s[1..]);
      if rest.None? then None else Some([s[0]] + rest.value)
    else
      var first := ReadBytes(s, 1);
      var n := if first.None? || first.value == [] then 0 else Announced(first.value[0]);
      if n == 0 || |s| < 3 * n then None
      else
        var bytes := ReadBytes(s, n);
        var c := if bytes.None? then None else DecodeChar(bytes.value);
        var rest := DecodeComponent(s[3 * n..]);
        if c.None? || rest.None? then None else Some([c.value] + rest.value)
  }

  lemma HexRoundTrip(n: nat)
    requires n < 16
    ensures HexValue(HexDigit(n)) == Some(n)
  { }

  lemma EscapeByteReads(b: Byte, rest: string)
    ensures var s := EscapeByte(b) + rest;
      |s| >= 3 && s[0] == '%' && s[3..] == rest
      && HexValue(s[1]) == Some(b / 16) && HexValue(s[2]) == Some(b % 16) && b / 16 * 16 + b % 16 == b
  {
    HexRoundTrip(b / 16);
    HexRoundTrip(b % 16);
  }

  lemma {:induction false} EscapedBytesRead(bytes: seq<Byte>, rest: string, n: nat)
    requires n <= |bytes|
    ensures |EscapeBytes(bytes)| == 3 * |bytes| && ReadBytes(EscapeBytes(bytes) + rest, n) == Some(bytes[..n])
    decreases |bytes|
  {
    if bytes != [] {
      var more := EscapeBytes(bytes[1..]) + rest;
      assert EscapeBytes(bytes) + rest == EscapeByte(bytes[0]) + more;
      EscapeByteReads(bytes[0], more);
      EscapedBytesRead(bytes[1..], rest, if n == 0 then 0 else n - 1);
      if n > 0 {
        assert [bytes[0]] + bytes[1..][..n - 1] == bytes[..n];
      }
    }
  }

  /** One encoded character is decoded as itself, whatever follows. */
  lemma OneDecodes(c: char, rest: string)
    ensures DecodeComponent(EncodeOne(c) + rest) ==
            if DecodeComponent(rest).None? then None else Some([c] + DecodeComponent(rest).value)
  {
    var s := EncodeOne(c) + rest;
    if Unescaped(c) {
      assert s[0] == c != '%' && s[1..] == rest;
    } else {
      var bytes := EncodeChar(c);
      EscapedBytesRead(bytes, rest, 1);
      EscapedBytesRead(bytes, rest, |bytes|);
      AnnouncesItself(c);
      CharRoundTrip(c);
      assert bytes[..|bytes|] == bytes && bytes[..1][0] == bytes[0];
      assert s[3 * |bytes|..] == rest;
      assert EscapeBytes(bytes)[0] == '%';
    }
  }

  /** Decoding an encoded component gives the text back. */
  lemma {:induction false} ComponentRoundTrip(s: string)
    ensures DecodeComponent(EncodeComponent(s)) == Some(s)
  {
    if s != "" {
      OneDecodes(s[0], EncodeComponent(s[1..]));
      ComponentRoundTrip(s[1..]);
      assert [s[0]] + s[1..] == s;
    }
  }

  predicate Encoded(c: char) {
    Unescaped(c) || c == '%'
  }

  lemma {:induction false} EscapedCharacters(bytes: seq<Byte>)
    ensures forall i :: 0 <= i < |EscapeBytes(bytes)| ==> Encoded(EscapeBytes(bytes)[i])
  {
    if bytes != [] {
      EscapedCharacters(bytes[1..]);
    }
  }

  /** A letter, a digit or one of nine marks stands for itself, and nothing else does. */
  lemma OneEncodes(c: char)
    ensures var n := c as int;
      EncodeOne(c) == [c] <==> 65 <= n <= 90 || 97 <= n <= 122 || 48 <= n <= 57
                               || c in {'-', '_', '.', '!', '~', '*', '\'', '(', ')'}
    ensures EncodeOne(c) != [c] ==> EncodeOne(c) == EscapeBytes(EncodeChar(c))
  {
    var marks := UNESCAPED_MARKS;
    assert marks == [marks[0], marks[1], marks[2], marks[3], marks[4], marks[5], marks[6], marks[7], marks[8]];
    if !Unescaped(c) {
      EscapedBytesRead(EncodeChar(c), "", 0);
    }
  }

  /** Every other byte is a percent sign and two digits, in capitals. */
  lemma EscapeByteIs(b: Byte)
    ensures EscapeByte(b) == ['%', "0123456789ABCDEF"[b / 16], "0123456789ABCDEF"[b % 16]]
  { }

  /** An escape is read in capitals or not. */
  lemma EscapesReadEither(b: Byte, rest: string)
    ensures ReadBytes(['%', "0123456789ABCDEF"[b / 16], "0123456789ABCDEF"[b % 16]] + rest, 1) == Some([b])
    ensures ReadBytes(['%', "0123456789abcdef"[b / 16], "0123456789abcdef"[b % 16]] + rest, 1) == Some([b])
  {
    HexReads(b / 16);
    HexReads(b % 16);
    EscapeReads("0123456789ABCDEF"[b / 16], "0123456789ABCDEF"[b % 16], b, rest);
    EscapeReads("0123456789abcdef"[b / 16], "0123456789abcdef"[b % 16], b, rest);
  }

  lemma EscapeReads(high: char, low: char, b: Byte, rest: string)
    requires HexValue(high) == Some(b / 16) && HexValue(low) == Some(b % 16)
    ensures ReadBytes(['%', high, low] + rest, 1) == Some([b])
  {
    var s := ['%', high, low] + rest;
    assert s[0] == '%' && s[1] == high && s[2] == low;
    var none: seq<Byte> := [];
    assert ReadBytes(s[3..], 0) == Some(none) && [b] + none == [b];
    assert b / 16 * 16 + b % 16 == b;
  }

  lemma HexReads(n: nat)
    requires n < 16
    ensures HexValue("0123456789ABCDEF"[n]) == Some(n)
    ensures HexValue("0123456789abcdef"[n]) == Some(n)
  { }

  /** Encoded text holds no delimiter: only unescaped characters and percent signs. */
  lemma {:induction false} EncodedCharacters(s: string)
    ensures forall i :: 0 <= i < |EncodeComponent(s)| ==> Encoded(EncodeComponent(s)[i])
    ensures s != "" ==> EncodeComponent(s) != ""
  {
    if s != "" {
      EncodedCharacters(s[1..]);
      EscapedCharacters(EncodeChar(s[0]));
    }
  }
}
