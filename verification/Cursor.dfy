/**
 * Opaque page cursors: a signed payload bound to a tenant, a query and a sort. Packing a
 * payload as text, the signature and the comparison of signature bytes are parameters.
 */
module Cursor {
  import opened Shared

  datatype Binding = Binding(tenant: string, filterHash: string, sort: string)
  datatype Position = Position(value: string, id: string)
  datatype Payload = Payload(binding: Binding, after: Position, expiresAt: int)

  datatype Rejection = CursorInvalid | CursorExpired
  datatype Decoded = Valid(after: Position) | Rejected(code: Rejection)

  const MAX_CURSOR_LENGTH: nat := 4096

  /** `unpack` gives nothing for text that is no payload; `bytes` reads a signature's text. */
  datatype Scheme = Scheme(pack: Payload -> string, unpack: string -> Option<Payload>, sign: string -> string,
                           bytes: string -> seq<int>)

  predicate Dotless(s: string) {
    forall i :: 0 <= i < |s| ==> s[i] != '.'
  }

  /** Packing is undone by unpacking, and neither it nor a signature uses the separator. */
  ghost predicate Sound(x: Scheme) {
    && (forall p: Payload :: x.unpack(x.pack(p)) == Some(p) && Dotless(x.pack(p)))
    && (forall s: string :: Dotless(x.sign(s)))
  }

  /** Whole seconds of an instant in milliseconds. */
  function Seconds(now: int): int {
    now / 1000
  }

  function Encode(x: Scheme, b: Binding, after: Position, ttlSeconds: nat, now: int): string {
    var packed := x.pack(Payload(b, after, Seconds(now) + ttlSeconds));
    packed + "." + x.sign(packed)
  }

  function Parts(s: string): seq<string> {
    if s == "" then [""]
    else
      var rest := Parts(s[1..]);
      if s[0] == '.' then [""] + rest else if rest == [] then [] else [[s[0]] + rest[0]] + rest[1..]
  }

  function Decode(x: Scheme, cursor: string, b: Binding, now: int): Decoded {
    var parts := Parts(cursor);
    if |cursor| > MAX_CURSOR_LENGTH || |parts| != 2 then Rejected(CursorInvalid)
    else if x.bytes(x.sign(parts[0])) != x.bytes(parts[1]) then Rejected(CursorInvalid)
    else
      var payload := x.unpack(parts[0]);
      if payload.None? || payload.value.binding != b then Rejected(CursorInvalid)
      else if payload.value.expiresAt <= Seconds(now) then Rejected(CursorExpired)
      else Valid(payload.value.after)
  }

  lemma {:induction false} OnePart(s: string)
    requires Dotless(s)
    ensures Parts(s) == [s]
  {
    if s != "" {
      OnePart(s[1..]);
      assert [s[0]] + s[1..] == s;
    }
  }

  lemma {:induction false} TwoParts(a: string, c: string)
    requires Dotless(a) && Dotless(c)
    ensures Parts(a + "." + c) == [a, c]
  {
    if a == "" {
      OnePart(c);
      assert a + "." + c == "." + c && ("." + c)[1..] == c;
    } else {
      assert (a + "." + c)[1..] == a[1..] + "." + c;
      TwoParts(a[1..], c);
      assert [a[0]] + a[1..] == a;
    }
  }

  /**
   * What decoding makes of an encoded cursor, in every case: a cursor too long, another
   * tenant, query or sort, or a cursor whose time is over is rejected, and any other gives
   * back the position it was made of.
   */
  lemma DecodesWhatWasEncoded(x: Scheme, b: Binding, after: Position, ttlSeconds: nat, at: int, presented: Binding,
                              now: int)
    requires Sound(x)
    ensures Decode(x, Encode(x, b, after, ttlSeconds, at), presented, now) ==
            if |Encode(x, b, after, ttlSeconds, at)| > 4096 || presented != b then Rejected(CursorInvalid)
            else if now / 1000 >= at / 1000 + ttlSeconds then Rejected(CursorExpired)
            else Valid(after)
  {
    var packed := x.pack(Payload(b, after, Seconds(at) + ttlSeconds));
    TwoParts(packed, x.sign(packed));
  }

  /**
   * Nothing is accepted but a text with the signature of its own payload, bound to what was asked
   * for and still in time.
   */
  lemma AcceptedWasSigned(x: Scheme, cursor: string, b: Binding, now: int)
    requires Decode(x, cursor, b, now).Valid?
    ensures |cursor| <= 4096
    ensures exists packed, signature ::
      && Parts(cursor) == [packed, signature] && x.bytes(signature) == x.bytes(x.sign(packed))
      && x.unpack(packed).Some? && x.unpack(packed).value.binding == b
      && x.unpack(packed).value.expiresAt > now / 1000
      && Decode(x, cursor, b, now) == Valid(x.unpack(packed).value.after)
  {
    var parts := Parts(cursor);
    assert parts == [parts[0], parts[1]];
  }
}
