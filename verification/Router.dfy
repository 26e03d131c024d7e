/** Hash routing: a route printed as a URL hash, and the hash parsed back. */
module Router {
  import opened Shared
  import opened Percent

  const SCREENS := ["accept-invitation", "reset-password", "inbox", "contacts", "channels", "broadcasts", "automations",
                    "analytics", "people", "roles", "teams", "settings"]
  const INBOX := "inbox"
  /** The one key whose assignment a plain object does not store. */
  const PROTO := "__proto__"

  datatype Route = Route(screen: string, conversation: Option<string>, params: map<string, string>)

  // ---- Printing ---------------------------------------------------------------------

  function Join(parts: seq<string>, separator: char): string {
    if parts == [] then "" else if |parts| == 1 then parts[0] else parts[0] + [separator] + Join(parts[1..], separator)
  }

  function Pair(key: string, value: string): string {
    EncodeComponent(key) + "=" + EncodeComponent(value)
  }

  /** `keys` is the order in which the record lists its entries; entries without a value are dropped. */
  function Pairs(params: map<string, string>, keys: seq<string>): seq<string>
    requires forall i :: 0 <= i < |keys| ==> keys[i] in params
  {
    if keys == [] then []
    else (if params[keys[0]] != "" then [Pair(keys[0], params[keys[0]])] else []) + Pairs(params, keys[1..])
  }

  function Path(r: Route): string {
    if r.screen == INBOX && r.conversation.Some?
    then "/" + INBOX + "/" + EncodeComponent(r.conversation.value) else "/" + r.screen
  }

  function FormatHash(r: Route, keys: seq<string>): string
    requires forall i :: 0 <= i < |keys| ==> keys[i] in r.params
  {
    var query := Join(Pairs(r.params, keys), '&');
    if query == "" then "#" + Path(r) else "#" + Path(r) + "?" + query
  }

  // ---- Parsing ----------------------------------------------------------------------

  function IndexOf(s: string, c: char): (i: nat)
    ensures i <= |s|
  {
    if s == "" || s[0] == c then 0 else 1 + IndexOf(s[1..], c)
  }

  /** The pieces between separators: always at least one. */
  function Split(s: string, separator: char): (pieces: seq<string>)
    ensures pieces != []
    decreases |s|
  {
    var i := IndexOf(s, separator);
    if i == |s| then [s] else [s[..i]] + Split(s[i + 1..], separator)
  }

  function NonEmpty(pieces: seq<string>): seq<string> {
    if pieces == [] then [] else (if pieces[0] == "" then [] else [pieces[0]]) + NonEmpty(pieces[1..])
  }

  function PlusToSpace(s: string): string {
    seq(|s|, i requires 0 <= i < |s| => if s[i] == '+' then ' ' else s[i])
  }

  function Assign(params: map<string, string>, key: string, value: string): map<string, string> {
    if key == PROTO then params else params[key := value]
  }

  /** One `key=value` piece; nothing when an escape in it is malformed. */
  function ReadPair(pair: string): Option<(string, string)> {
    var i := IndexOf(pair, '=');
    var key := DecodeComponent(pair[..i]);
    var value := DecodeComponent(PlusToSpace(if i == |pair| then "" else pair[i + 1..]));
    if key.None? || value.None? then None else Some((key.value, value.value))
  }

  function ReadPairs(pieces: seq<string>, params: map<string, string>): Option<map<string, string>>
    decreases |pieces|
  {
    if pieces == [] then Some(params)
    else if pieces[0] == "" then ReadPairs(pieces[1..], params)
    else
      var pair := ReadPair(pieces[0]);
      if pair.None? then None else ReadPairs(pieces[1..], Assign(params, pair.value.0, pair.value.1))
  }

  function ScreenOf(segments: seq<string>): string {
    if segments != [] && segments[0] in SCREENS then segments[0] else INBOX
  }

  function Raw(hash: string): string {
    if hash != "" && hash[0] == '#' then hash[1..] else hash
  }

  /** The conversation named by the path: absent outside the inbox; an outer nothing is a malformed escape. */
  function ConversationOf(segments: seq<string>): Option<Option<string>> {
    if ScreenOf(segments) == INBOX && |segments| > 1 then
      var text := DecodeComponent(segments[1]);
      if text.None? then None else Some(text)
    else Some(None)
  }

  function Parse(hash: string): Option<Route> {
    var pieces := Split(Raw(hash), '?');
    var segments := NonEmpty(Split(pieces[0], '/'));
    var conversation := ConversationOf(segments);
    var params := ReadPairs(Split(if |pieces| > 1 then pieces[1] else "", '&'), map[]);
    if conversation.None? || params.None? then None
    else Some(Route(ScreenOf(segments), conversation.value, params.value))
  }

  method ParseHash(hash: string) returns (route: Option<Route>)
    ensures route == Parse(hash)
  {
    var pieces := Split(Raw(hash), '?');
    var segments := NonEmpty(Split(pieces[0], '/'));
    var conversation := ConversationOf(segments);
    if conversation.None? { return None; }
    var params: map<string, string> := map[];
    var pairs := Split(if |pieces| > 1 then pieces[1] else "", '&');
    var i := 0;
    while i < |pairs|
      invariant 0 <= i <= |pairs|
      invariant ReadPairs(pairs, map[]) == ReadPairs(pairs[i..], params)
    {
      assert pairs[i..][1..] == pairs[i + 1..];
      if pairs[i] != "" {
        var pair := ReadPair(pairs[i]);
        if pair.None? { return None; }
        params := Assign(params, pair.value.0, pair.value.1);
      }
      i := i + 1;
    }
    route := Some(Route(ScreenOf(segments), conversation.value, params));
  }

  // ---- Splitting what was joined ----------------------------------------------------

  predicate Lacks(s: string, c: char) {
    forall i :: 0 <= i < |s| ==> s[i] != c
  }

  lemma {:induction false} IndexAfter(a: string, c: char, b: string)
    requires Lacks(a, c)
    ensures IndexOf(a + [c] + b, c) == |a| && IndexOf(a, c) == |a|
    decreases |a|
  {
    if a == "" {
      assert a + [c] + b == [c] + b;
    } else {
      assert (a + [c] + b)[1..] == a[1..] + [c] + b;
      IndexAfter(a[1..], c, b);
    }
  }

  lemma SplitFirst(a: string, c: char, b: string)
    requires Lacks(a, c)
    ensures Split(a, c) == [a] && Split(a + [c] + b, c) == [a] + Split(b, c)
  {
    IndexAfter(a, c, b);
    var s := a + [c] + b;
    assert s[..|a|] == a && s[|a| + 1..] == b;
  }

  lemma {:induction false} SplitJoin(parts: seq<string>, c: char)
    requires parts != [] && forall i :: 0 <= i < |parts| ==> Lacks(parts[i], c)
    ensures Split(Join(parts, c), c) == parts
    decreases |parts|
  {
    if |parts| == 1 {
      SplitFirst(parts[0], c, "");
      assert parts == [parts[0]];
    } else {
      SplitFirst(parts[0], c, Join(parts[1..], c));
      SplitJoin(parts[1..], c);
      assert [parts[0]] + parts[1..] == parts;
    }
  }

  lemma EncodedLacks(s: string, c: char)
    requires !Encoded(c)
    ensures Lacks(EncodeComponent(s), c)
  {
    EncodedCharacters(s);
  }

  lemma PlusUntouched(s: string)
    requires Lacks(s, '+')
    ensures PlusToSpace(s) == s
  { }

  // ---- One pair ---------------------------------------------------------------------

  lemma LacksBoth(a: string, c: char, b: string, d: char)
    requires Lacks(a, d) && Lacks(b, d) && c != d
    ensures Lacks(a + [c] + b, d)
  { }

  lemma PairLacks(key: string, value: string, c: char)
    requires !Encoded(c) && c != '='
    ensures Lacks(Pair(key, value), c)
  {
    EncodedLacks(key, c);
    EncodedLacks(value, c);
    LacksBoth(EncodeComponent(key), '=', EncodeComponent(value), c);
  }

  lemma PairSplits(k: string, v: string)
    requires Lacks(k, '=')
    ensures var pair := k + "=" + v;
      IndexOf(pair, '=') == |k| < |pair| && pair[..|k|] == k && pair[|k| + 1..] == v
  {
    IndexAfter(k, '=', v);
    assert k + "=" + v == k + ['='] + v;
  }

  lemma PairReads(key: string, value: string)
    ensures ReadPair(Pair(key, value)) == Some((key, value)) && Pair(key, value) != ""
  {
    EncodedLacks(key, '=');
    EncodedLacks(value, '+');
    PairSplits(EncodeComponent(key), EncodeComponent(value));
    PlusUntouched(EncodeComponent(value));
    ComponentRoundTrip(key);
    ComponentRoundTrip(value);
  }

  // ---- All pairs --------------------------------------------------------------------

  /** What reading back the printed entries adds. */
  function Kept(params: map<string, string>, keys: seq<string>, onto: map<string, string>): map<string, string>
    requires forall i :: 0 <= i < |keys| ==> keys[i] in params
    decreases |keys|
  {
    if keys == [] then onto
    else Kept(params, keys[1..], if params[keys[0]] == "" then onto else Assign(onto, keys[0], params[keys[0]]))
  }

  lemma {:induction false} PairsRead(params: map<string, string>, keys: seq<string>, onto: map<string, string>)
    requires forall i :: 0 <= i < |keys| ==> keys[i] in params
    ensures ReadPairs(Pairs(params, keys), onto) == Some(Kept(params, keys, onto))
    ensures forall i :: 0 <= i < |Pairs(params, keys)| ==>
      Lacks(Pairs(params, keys)[i], '&') && Lacks(Pairs(params, keys)[i], '?') && Pairs(params, keys)[i] != ""
    decreases |keys|
  {
    if keys != [] {
      var value := params[keys[0]];
      PairReads(keys[0], value);
      PairLacks(keys[0], value, '&');
      PairLacks(keys[0], value, '?');
      var next := if value == "" then onto else Assign(onto, keys[0], value);
      PairsRead(params, keys[1..], next);
      var rest := Pairs(params, keys[1..]);
      if value != "" {
        assert Pairs(params, keys) == [Pair(keys[0], value)] + rest;
        assert Pairs(params, keys)[1..] == rest;
      } else {
        assert Pairs(params, keys) == rest;
      }
    }
  }

  lemma {:induction false} KeptIs(params: map<string, string>, keys: seq<string>, onto: map<string, string>, k: string)
    requires forall i :: 0 <= i < |keys| ==> keys[i] in params
    ensures k in Kept(params, keys, onto) <==> k in onto || (k in keys && params[k] != "" && k != PROTO)
    ensures k in Kept(params, keys, onto) ==>
      Kept(params, keys, onto)[k] == if k in keys && params[k] != "" && k != PROTO then params[k] else onto[k]
    decreases |keys|
  {
    if keys != [] {
      KeptIs(params, keys[1..], if params[keys[0]] == "" then onto else Assign(onto, keys[0], params[keys[0]]), k);
      assert k in keys <==> k == keys[0] || k in keys[1..];
    }
  }

  /** The entries of a record in some order: each key once. */
  predicate Order(params: map<string, string>, keys: seq<string>) {
    && (forall i :: 0 <= i < |keys| ==> keys[i] in params)
    && (forall k :: k in params ==> k in keys)
    && forall i, j :: 0 <= i < j < |keys| ==> keys[i] != keys[j]
  }

  /** What survives of the entries. */
  function Storable(params: map<string, string>): map<string, string> {
    map k | k in params && params[k] != "" && k != PROTO :: params[k]
  }

  lemma KeptIsStorable(params: map<string, string>, keys: seq<string>)
    requires Order(params, keys)
    ensures Kept(params, keys, map[]) == Storable(params)
  {
    forall k ensures k in Kept(params, keys, map[]) <==> k in Storable(params) {
      KeptIs(params, keys, map[], k);
    }
    forall k | k in Storable(params) ensures Kept(params, keys, map[])[k] == Storable(params)[k] {
      KeptIs(params, keys, map[], k);
    }
  }

  // ---- The path ---------------------------------------------------------------------

  lemma ScreensPlain(screen: string)
    requires screen in SCREENS
    ensures Lacks(screen, '/') && Lacks(screen, '?') && screen != ""
  { }

  lemma NonEmptyCons(piece: string, pieces: seq<string>)
    ensures NonEmpty([piece] + pieces) == if piece == "" then NonEmpty(pieces) else [piece] + NonEmpty(pieces)
  {
    assert ([piece] + pieces)[1..] == pieces;
  }

  /** `/` and one segment. */
  lemma OneSegment(screen: string) returns (segments: seq<string>)
    requires screen != "" && Lacks(screen, '/')
    ensures segments == [screen] && segments == NonEmpty(Split("/" + screen, '/'))
  {
    segments := [screen];
    assert "/" + screen == "" + ['/'] + screen;
    SplitFirst("", '/', screen);
    SplitFirst(screen, '/', "");
    NonEmptyCons("", [screen]);
    NonEmptyCons(screen, []);
    assert [screen] + [] == [screen];
  }

  /** `/`, one segment, `/`, and another that may be empty. */
  lemma TwoSegments(screen: string, text: string) returns (segments: seq<string>)
    requires screen != "" && Lacks(screen, '/') && Lacks(text, '/')
    ensures segments == (if text == "" then [screen] else [screen, text])
    ensures segments == NonEmpty(Split("/" + screen + "/" + text, '/'))
  {
    var tail := screen + ['/'] + text;
    assert "/" + screen + "/" + text == "" + ['/'] + tail;
    SplitFirst("", '/', tail);
    SplitFirst(screen, '/', text);
    SplitFirst(text, '/', "");
    segments := NonEmptyThree(screen, text);
  }

  lemma NonEmptyThree(screen: string, text: string) returns (segments: seq<string>)
    requires screen != ""
    ensures segments == (if text == "" then [screen] else [screen, text])
    ensures segments == NonEmpty([""] + ([screen] + [text]))
  {
    segments := if text == "" then [screen] else [screen, text];
    NonEmptyCons("", [screen] + [text]);
    NonEmptyCons(screen, [text]);
    NonEmptyCons(text, []);
    assert [text] + [] == [text] && [screen] + [] == [screen] && [screen] + [text] == [screen, text];
  }

  lemma InboxIsScreen()
    ensures INBOX in SCREENS && INBOX != "" && Lacks(INBOX, '/') && Lacks(INBOX, '?')
  {
    assert SCREENS[2] == INBOX;
  }

  lemma InboxSegments(id: string, text: string, segments: seq<string>)
    requires text == EncodeComponent(id) && segments == if text == "" then [INBOX] else [INBOX, text]
    ensures ScreenOf(segments) == INBOX && ConversationOf(segments) == Some(if id == "" then None else Some(id))
  {
    InboxIsScreen();
    EncodedCharacters(id);
    ComponentRoundTrip(id);
  }

  lemma PathLacks(screen: string, text: string)
    requires Lacks(screen, '?') && Lacks(text, '?')
    ensures Lacks("/" + screen + "/" + text, '?')
  { }

  lemma InboxPathReads(id: string, path: string) returns (segments: seq<string>)
    requires path == "/" + INBOX + "/" + EncodeComponent(id)
    ensures segments == NonEmpty(Split(path, '/')) && Lacks(path, '?') && ScreenOf(segments) == INBOX
    ensures ConversationOf(segments) == Some(if id == "" then None else Some(id))
  {
    var text := EncodeComponent(id);
    EncodedLacks(id, '/');
    EncodedLacks(id, '?');
    InboxIsScreen();
    PathLacks(INBOX, text);
    segments := TwoSegments(INBOX, text);
    InboxSegments(id, text, segments);
  }

  lemma PathReads(r: Route) returns (segments: seq<string>)
    requires r.screen in SCREENS
    ensures segments == NonEmpty(Split(Path(r), '/')) && Lacks(Path(r), '?') && ScreenOf(segments) == r.screen
    ensures ConversationOf(segments) ==
            Some(if r.screen == INBOX && r.conversation != Some("") then r.conversation else None)
  {
    ScreensPlain(r.screen);
    if r.screen == INBOX && r.conversation.Some? {
      segments := InboxPathReads(r.conversation.value, Path(r));
    } else {
      segments := OneSegment(r.screen);
    }
  }

  // ---- The round trip ---------------------------------------------------------------

  lemma {:induction false} JoinLacks(parts: seq<string>, c: char, d: char)
    requires c != d && forall i :: 0 <= i < |parts| ==> Lacks(parts[i], d)
    ensures Lacks(Join(parts, c), d)
    decreases |parts|
  {
    if |parts| > 1 {
      JoinLacks(parts[1..], c, d);
      LacksBoth(parts[0], c, Join(parts[1..], c), d);
    }
  }

  lemma QueryReads(params: map<string, string>, keys: seq<string>) returns (query: string)
    requires Order(params, keys)
    ensures query == Join(Pairs(params, keys), '&') && Lacks(query, '?')
    ensures ReadPairs(Split(query, '&'), map[]) == Some(Storable(params))
  {
    var parts := Pairs(params, keys);
    PairsRead(params, keys, map[]);
    KeptIsStorable(params, keys);
    query := Join(parts, '&');
    JoinLacks(parts, '&', '?');
    if parts == [] {
      SplitFirst("", '&', "");
      assert [""][1..] == [];
    } else {
      SplitJoin(parts, '&');
    }
  }

  /** What parsing a printed route gives back. */
  function Normal(r: Route): Route {
    var conversation := if r.screen == INBOX && r.conversation != Some("") then r.conversation else None;
    Route(r.screen, conversation, Storable(r.params))
  }

  /** The query is cut off where it was put on, and an absent one reads as empty. */
  lemma HashSplits(path: string, query: string) returns (pieces: seq<string>)
    requires Lacks(path, '?') && Lacks(query, '?')
    ensures pieces == Split(Raw(if query == "" then "#" + path else "#" + path + "?" + query), '?')
    ensures pieces[0] == path && (if |pieces| > 1 then pieces[1] else "") == query
  {
    SplitFirst(path, '?', query);
    SplitFirst(query, '?', "");
    if query == "" {
      assert ("#" + path)[1..] == path;
      pieces := [path];
    } else {
      assert ("#" + path + "?" + query)[1..] == path + ['?'] + query;
      pieces := [path, query];
    }
  }

  /**
   * Parsing a printed route gives its normal form, whatever its texts hold and in whatever order
   * it lists its entries.
   */
  lemma PrintedRouteParses(r: Route, keys: seq<string>)
    requires r.screen in SCREENS && Order(r.params, keys)
    ensures Parse(FormatHash(r, keys)) == Some(Normal(r))
  {
    var segments := PathReads(r);
    var query := QueryReads(r.params, keys);
    var pieces := HashSplits(Path(r), query);
  }

  /** It gives the route itself exactly when the route is in normal form. */
  lemma RoundTripIff(r: Route, keys: seq<string>)
    requires r.screen in SCREENS && Order(r.params, keys)
    ensures Parse(FormatHash(r, keys)) == Some(r) <==>
      && (r.screen == INBOX ==> r.conversation != Some(""))
      && (r.screen != INBOX ==> r.conversation.None?)
      && forall k :: k in r.params ==> r.params[k] != "" && k != PROTO
  {
    PrintedRouteParses(r, keys);
    if Storable(r.params) == r.params {
      forall k | k in r.params ensures r.params[k] != "" && k != PROTO {
        assert k in Storable(r.params);
      }
    }
    if forall k :: k in r.params ==> r.params[k] != "" && k != PROTO {
      assert Storable(r.params) == r.params;
    }
  }

  /** The browser's location: `writes` counts the assignments to its hash, each of which the listeners hear. */
  class Host {
    var location: string
    var writes: nat

    constructor (hash: string)
      ensures location == hash && writes == 0
    {
      location, writes := hash, 0;
    }

    /** A route already in the location is not written again; either way it is what the location reads as. */
    method WriteRoute(r: Route, keys: seq<string>) returns (changed: bool)
      requires forall i :: 0 <= i < |keys| ==> keys[i] in r.params
      modifies this
      ensures location == FormatHash(r, keys) && (changed <==> location != old(location))
      ensures writes == old(writes) + (if changed then 1 else 0)
      ensures r.screen in SCREENS && Order(r.params, keys) ==> Parse(location) == Some(Normal(r))
    {
      var next := FormatHash(r, keys);
      if r.screen in SCREENS && Order(r.params, keys) { PrintedRouteParses(r, keys); }
      if location == next { return false; }
      location, writes := next, writes + 1;
      return true;
    }
  }
}
