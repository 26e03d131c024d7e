/** What hand-written hashes are read as, and what of a screen's state a link carries, by the names that stand in it. */
module RouteMeaning {
  import opened Shared
  import opened Percent
  import opened Router
  import opened UrlState

  // ---- The path of a hand-written hash ------------------------------------------------

  /** The names a hash can open. */
  predicate Known(name: string) {
    name in {"accept-invitation", "reset-password", "inbox", "contacts", "channels", "broadcasts", "automations",
             "analytics", "people", "roles", "teams", "settings"}
  }

  lemma KnownScreens(name: string)
    ensures name in SCREENS <==> Known(name)
  {
    var all := SCREENS;
    assert all == [all[0], all[1], all[2], all[3], all[4], all[5], all[6], all[7], all[8], all[9], all[10], all[11]];
  }

  /** A segment as it can stand in a path. */
  predicate Segment(s: string) {
    s != "" && Lacks(s, '/') && Lacks(s, '?')
  }

  function Slashed(segments: seq<string>): string {
    if segments == [] then "" else "/" + Join(segments, '/')
  }

  lemma {:induction false} AllNonEmpty(segments: seq<string>)
    requires forall i :: 0 <= i < |segments| ==> Segment(segments[i])
    ensures NonEmpty(segments) == segments
  {
    if segments != [] {
      AllNonEmpty(segments[1..]);
    }
  }

  lemma SlashedReads(segments: seq<string>)
    requires forall i :: 0 <= i < |segments| ==> Segment(segments[i])
    ensures NonEmpty(Split(Slashed(segments), '/')) == segments && Lacks(Slashed(segments), '?')
  {
    if segments == [] {
      SplitFirst("", '/', "");
      NonEmptyCons("", []);
      assert [""] + [] == [""];
    } else {
      SplitJoin(segments, '/');
      SplitFirst("", '/', Join(segments, '/'));
      assert Slashed(segments) == "" + ['/'] + Join(segments, '/');
      NonEmptyCons("", segments);
      AllNonEmpty(segments);
      JoinLacks(segments, '/', '?');
    }
  }

  lemma NoQuery(path: string)
    requires Lacks(path, '?')
    ensures Split(Raw("#" + path), '?') == [path] && Split("", '&') == [""]
  {
    SplitFirst(path, '?', "");
    SplitFirst("", '&', "");
    assert ("#" + path)[1..] == path;
  }

  /**
   * A hash without a query opens the screen its first segment names, and the inbox when
   * that is no screen or there is none; in the inbox, named or not, the second segment is a
   * conversation, and a malformed escape in it fails the whole hash.
   */
  lemma PathMeans(segments: seq<string>)
    requires forall i :: 0 <= i < |segments| ==> Segment(segments[i])
    ensures var known := segments != [] && Known(segments[0]);
      var screen := if known then segments[0] else "inbox";
      Parse("#" + Slashed(segments)) ==
        if screen != "inbox" || |segments| < 2 then Some(Route(screen, None, map[]))
        else if DecodeComponent(segments[1]).None? then None
        else Some(Route("inbox", DecodeComponent(segments[1]), map[]))
  {
    SlashedReads(segments);
    NoQuery(Slashed(segments));
    KnownScreens(if segments == [] then "" else segments[0]);
    assert [""][1..] == [];
  }

  /** The empty hash, with or without its sign, is the inbox. */
  lemma EmptyHash(hash: string)
    requires hash == "" || hash == "#"
    ensures Parse(hash) == Some(Route("inbox", None, map[]))
  {
    var none: seq<string> := [];
    PathMeans(none);
    assert Raw("#" + Slashed(none)) == Raw(hash);
  }

  /** The sign in front can be left out. */
  lemma SignOptional(text: string)
    requires text == "" || text[0] != '#'
    ensures Parse(text) == Parse("#" + text)
  {
    assert ("#" + text)[1..] == text;
  }

  // ---- Its query ----------------------------------------------------------------------

  function InFrontOf(text: string, rest: Option<string>): Option<string> {
    if rest.None? then None else Some(text + rest.value)
  }

  lemma OneMoreInFront(text: string, rest: Option<string>)
    requires text != ""
    ensures InFrontOf([text[0]], InFrontOf(text[1..], rest)) == InFrontOf(text, rest)
  {
    if rest.Some? {
      assert [text[0]] + (text[1..] + rest.value) == text + rest.value;
    }
  }

  lemma OneDecodesInFront(c: char, rest: string, read: Option<string>)
    requires DecodeComponent(rest) == read
    ensures DecodeComponent(EncodeOne(c) + rest) == InFrontOf([c], read)
  {
    OneDecodes(c, rest);
  }

  /** An encoded text in front is decoded as itself, whatever follows. */
  lemma {:induction false} DecodesInFront(text: string, rest: string, read: Option<string>)
    requires DecodeComponent(rest) == read
    ensures DecodeComponent(EncodeComponent(text) + rest) == InFrontOf(text, read)
  {
    if text == "" {
      assert "" + rest == rest;
      assert read.Some? ==> "" + read.value == read.value;
    } else {
      var more := EncodeComponent(text[1..]) + rest;
      assert EncodeComponent(text) + rest == EncodeOne(text[0]) + more;
      DecodesInFront(text[1..], rest, read);
      OneDecodesInFront(text[0], more, InFrontOf(text[1..], read));
      OneMoreInFront(text, read);
    }
  }

  function Encoded(words: seq<string>): seq<string> {
    seq(|words|, i requires 0 <= i < |words| => EncodeComponent(words[i]))
  }

  lemma {:induction false} WordsDecode(words: seq<string>, c: char)
    requires c != '%'
    ensures DecodeComponent(Join(Encoded(words), c)) == Some(Join(words, c))
    decreases |words|
  {
    if |words| == 1 {
      ComponentRoundTrip(words[0]);
    } else if words != [] {
      var rest := Join(Encoded(words[1..]), c);
      WordsDecode(words[1..], c);
      assert Encoded(words)[1..] == Encoded(words[1..]);
      assert Join(Encoded(words), c) == EncodeComponent(words[0]) + ([c] + rest);
      assert ([c] + rest)[1..] == rest;
      DecodesInFront(words[0], [c] + rest, Some([c] + Join(words[1..], c)));
      assert words[0] + ([c] + Join(words[1..], c)) == Join(words, c);
    }
  }

  lemma PlusBetween(a: string, b: string)
    requires Lacks(a, '+')
    ensures PlusToSpace(a + "+" + b) == a + " " + PlusToSpace(b)
  { }

  lemma {:induction false} PlusJoined(words: seq<string>)
    ensures PlusToSpace(Join(Encoded(words), '+')) == Join(Encoded(words), ' ')
    decreases |words|
  {
    if |words| == 1 {
      EncodedLacks(words[0], '+');
      PlusUntouched(EncodeComponent(words[0]));
    } else if words != [] {
      EncodedLacks(words[0], '+');
      PlusJoined(words[1..]);
      assert Encoded(words)[1..] == Encoded(words[1..]);
      PlusBetween(EncodeComponent(words[0]), Join(Encoded(words[1..]), '+'));
    }
  }

  lemma {:induction false} EncodedJoinLacks(words: seq<string>)
    ensures Lacks(Join(Encoded(words), '+'), '=')
    decreases |words|
  {
    forall i | 0 <= i < |words| ensures Lacks(Encoded(words)[i], '=') {
      EncodedLacks(words[i], '=');
    }
    JoinLacks(Encoded(words), '+', '=');
  }

  /** A plus sign is a space in a value, and itself in a name; without an equals sign the value is empty. */
  lemma PairMeans(name: seq<string>, value: seq<string>)
    ensures ReadPair(Join(Encoded(name), '+') + "=" + Join(Encoded(value), '+')) ==
      Some((Join(name, '+'), Join(value, ' ')))
    ensures ReadPair(Join(Encoded(name), '+')) == Some((Join(name, '+'), ""))
  {
    var k, v := Join(Encoded(name), '+'), Join(Encoded(value), '+');
    EncodedJoinLacks(name);
    PairSplits(k, v);
    PlusJoined(value);
    WordsDecode(name, '+');
    WordsDecode(value, ' ');
    IndexAfter(k, '=', "");
    assert k[..|k|] == k;
  }

  /** The last value given for a name counts; the name a plain object cannot store is not kept. */
  ghost predicate LastOf(read: seq<(string, string)>, k: string, v: string) {
    k != "__proto__" && exists i :: 0 <= i < |read| && IsLast(read, i, k, v)
  }

  predicate IsLast(read: seq<(string, string)>, i: nat, k: string, v: string)
    requires i < |read|
  {
    read[i] == (k, v) && forall j :: i < j < |read| ==> read[j].0 != k
  }

  lemma LastOfMore(read: seq<(string, string)>, more: seq<(string, string)>, k: string, v: string)
    requires more != [] && read == more[..|more| - 1]
    ensures LastOf(more, k, v) <==>
      k != "__proto__" && (more[|more| - 1] == (k, v) || (more[|more| - 1].0 != k && LastOf(read, k, v)))
  {
    var n := |read|;
    if more[n] == (k, v) {
      assert IsLast(more, n, k, v);
    }
    if i :| 0 <= i < |read| && IsLast(read, i, k, v) && more[n].0 != k {
      assert IsLast(more, i, k, v);
    }
    if i :| 0 <= i < |more| && IsLast(more, i, k, v) && i < n {
      assert IsLast(read, i, k, v) && more[n].0 != k;
    }
  }

  lemma {:induction false} ReadPairsSnoc(pieces: seq<string>, last: string, params: map<string, string>)
    requires last != "" && ReadPair(last).Some?
    ensures ReadPairs(pieces + [last], params) ==
      if ReadPairs(pieces, params).None? then None
      else Some(Assign(ReadPairs(pieces, params).value, ReadPair(last).value.0, ReadPair(last).value.1))
    decreases |pieces|
  {
    if pieces == [] {
      assert ([] + [last])[1..] == [];
    } else {
      assert (pieces + [last])[1..] == pieces[1..] + [last] && (pieces + [last])[0] == pieces[0];
      if pieces[0] == "" {
        ReadPairsSnoc(pieces[1..], last, params);
      } else if ReadPair(pieces[0]).Some? {
        var pair := ReadPair(pieces[0]).value;
        ReadPairsSnoc(pieces[1..], last, Assign(params, pair.0, pair.1));
      }
    }
  }

  /** The pieces of a query one by one, and what each is read as. */
  ghost predicate ReadAs(pieces: seq<string>, read: seq<(string, string)>) {
    |pieces| == |read| && forall i :: 0 <= i < |pieces| ==> pieces[i] != "" && ReadPair(pieces[i]) == Some(read[i])
  }

  lemma {:induction false} PiecesMean(pieces: seq<string>, read: seq<(string, string)>)
    returns (params: map<string, string>)
    requires ReadAs(pieces, read)
    ensures ReadPairs(pieces, map[]) == Some(params)
    ensures forall k, v :: (k in params && params[k] == v) <==> LastOf(read, k, v)
    decreases |pieces|
  {
    params := map[];
    if pieces != [] {
      var n := |pieces| - 1;
      var before := PiecesMean(pieces[..n], read[..n]);
      params := Assign(before, read[n].0, read[n].1);
      assert pieces[..n] + [pieces[n]] == pieces;
      ReadPairsSnoc(pieces[..n], pieces[n], map[]);
      forall k, v ensures (k in params && params[k] == v) <==> LastOf(read, k, v) {
        LastOfMore(read[..n], read, k, v);
        assert (k in before && before[k] == v) <==> LastOf(read[..n], k, v);
      }
    }
  }

  predicate Piece(s: string) {
    s != "" && Lacks(s, '&') && Lacks(s, '?')
  }

  lemma HashSplitsAt(path: string, query: string, rest: string)
    requires Lacks(path, '?') && Lacks(query, '?')
    ensures var pieces := Split(Raw("#" + path + "?" + query), '?');
      |pieces| > 1 && pieces[0] == path && pieces[1] == query
    ensures var pieces := Split(Raw("#" + path + "?" + query + "?" + rest), '?');
      |pieces| > 1 && pieces[0] == path && pieces[1] == query
  {
    SplitFirst(path, '?', query);
    SplitFirst(query, '?', rest);
    assert ("#" + path + "?" + query)[1..] == path + ['?'] + query;
    SplitFirst(path, '?', query + ['?'] + rest);
    assert ("#" + path + "?" + query + "?" + rest)[1..] == path + ['?'] + (query + ['?'] + rest);
  }

  lemma PiecesParse(hash: string, screen: string, query: string, params: map<string, string>)
    requires screen in SCREENS && var pieces := Split(Raw(hash), '?');
      |pieces| > 1 && NonEmpty(Split(pieces[0], '/')) == [screen] && pieces[1] == query
    requires ReadPairs(Split(query, '&'), map[]) == Some(params)
    ensures Parse(hash) == Some(Route(screen, None, params))
  { }

  /**
   * A hash with a query: the path as without one, and of every name the last value given.
   * What follows a second question mark is ignored.
   */
  lemma QueryMeans(screen: string, pieces: seq<string>, read: seq<(string, string)>, rest: string)
    returns (params: map<string, string>)
    requires Known(screen) && pieces != [] && ReadAs(pieces, read) && forall i :: 0 <= i < |pieces| ==>
      Piece(pieces[i])
    ensures Parse("#" + Slashed([screen]) + "?" + Join(pieces, '&')) == Some(Route(screen, None, params))
    ensures Parse("#" + Slashed([screen]) + "?" + Join(pieces, '&') + "?" + rest) == Some(Route(screen, None, params))
    ensures forall k, v :: (k in params && params[k] == v) <==> LastOf(read, k, v)
  {
    params := PiecesMean(pieces, read);
    var path, query := Slashed([screen]), Join(pieces, '&');
    KnownScreens(screen);
    ScreensPlain(screen);
    SplitJoin(pieces, '&');
    JoinLacks(pieces, '&', '?');
    SlashedReads([screen]);
    HashSplitsAt(path, query, rest);
    PiecesParse("#" + path + "?" + query, screen, query, params);
    PiecesParse("#" + path + "?" + query + "?" + rest, screen, query, params);
  }

  // ---- What a link carries --------------------------------------------------------------

  predicate HexDigits(s: string, n: nat) {
    |s| == n && forall i :: 0 <= i < n ==> s[i] in "0123456789abcdefABCDEF"
  }

  /** Five groups of hexadecimal digits between hyphens, of a version from 1 to 8 and the usual variant. */
  ghost predicate Uuid(s: string) {
    exists a, b, c, d, e :: UuidOf(s, a, b, c, d, e)
  }

  ghost predicate UuidOf(s: string, a: string, b: string, c: string, d: string, e: string) {
    && s == a + "-" + b + "-" + c + "-" + d + "-" + e
    && HexDigits(a, 8) && HexDigits(b, 4) && HexDigits(c, 4) && HexDigits(d, 4) && HexDigits(e, 12)
    && c[0] in "12345678" && d[0] in "89abAB"
  }

  /** The parameters by the names they have in a link. */
  predicate IsNamed(k: Key, name: string) {
    match k
    case Lang => name == "lang" case Queue => name == "queue" case Scope => name == "scope" case Sort => name == "sort"
    case Filters => name == "filters" case View => name == "view" case From => name == "from" case To => name == "to"
    case AgentFilter => name == "agentFilter" case Team => name == "team" case Channel => name == "channel"
    case Connection => name == "connection" case Label => name == "label" case Campaign => name == "campaign"
    case Priority => name == "priority" case Status => name == "status" case Agent => name == "agent"
    case Token => name == "token" case Role => name == "role" case Tab => name == "tab" case Edit => name == "edit"
  }

  /** What the screen was opened with, unless that was empty. */
  function Own(given: map<string, string>, name: string): Option<string> {
    if name in given && given[name] != "" then Some(given[name]) else None
  }

  function OnlyIf(holds: bool, value: Option<string>): Option<string> {
    if holds then value else None
  }

  /** One parameter of a link to the inbox. */
  function InboxCarried<F>(codec: Codec<F>, q: InboxQueue, query: Query<F>, k: Key): Option<string> {
    match k
    case Queue => When(!q.Unassigned?, if q.Mine? then "mine" else "all")
    case Scope => When(q.Mine? && query.queue.Everyone?, "all")
    case Sort => When(query.sort != "activity_desc", query.sort)
    case Filters => OnlyIf(query.filters != [], Some(codec.stringify(query.filters)))
    case _ => None
  }

  /** One parameter of a link to the analytics. */
  ghost function AnalyticsCarried(view: string, a: Analytics, given: map<string, string>, k: Key): Option<string> {
    match k
    case View => When(view != "campaigns", view)
    case From => When(a.from != "", a.from)
    case To => When(a.to != "", a.to)
    case AgentFilter => When(a.agentId != "", a.agentId)
    case Team => When(a.teamId != "", a.teamId)
    case Channel => When(a.channel != "", a.channel)
    case Connection => When(a.connectionId != "", a.connectionId)
    case Label => When(a.labelId != "", a.labelId)
    case Campaign => When(a.campaignId != "", a.campaignId)
    case Priority => When(a.priority != "", a.priority)
    case Status => When(a.status != "", a.status)
    case Agent => OnlyIf("agent" in given && Uuid(given["agent"]), Own(given, "agent"))
    case _ => None
  }

  /** One parameter of a link to any other screen: what it was opened with, where the screen wants it. */
  function ScreenCarried(screen: string, given: map<string, string>, k: Key): Option<string> {
    match k
    case Token => OnlyIf(screen == "accept-invitation" || screen == "reset-password", Own(given, "token"))
    case Role => OnlyIf(screen == "roles", Own(given, "role"))
    case Team => OnlyIf(screen == "teams", Own(given, "team"))
    case Edit => OnlyIf(screen == "automations", Own(given, "edit"))
    case Tab => OnlyIf((screen == "people" && Own(given, "tab") == Some("invitations"))
                       || (screen == "roles" && Own(given, "role").Some? && Own(given, "tab") == Some("users")),
                       Own(given, "tab"))
    case View => OnlyIf(screen == "automations" && (Own(given, "view") == Some("templates")
          || Own(given, "view") == Some("mine")
                                                    || Own(given, "view") == Some("runs")), Own(given, "view"))
    case _ => None
  }

  /** One parameter of a link, as the state of the screen stands. */
  ghost function Carried<F>(codec: Codec<F>, s: State<F>, k: Key): Option<string> {
    if k.Lang? then When(s.lang.English?, "en")
    else if s.route.screen == "inbox" then InboxCarried(codec, s.inboxQueue, s.query, k)
    else if s.route.screen == "analytics" then AnalyticsCarried(s.view, s.analytics, s.route.params, k)
    else ScreenCarried(s.route.screen, s.route.params, k)
  }

  function When(holds: bool, value: string): Option<string> {
    if holds then Some(value) else None
  }

  predicate Has(params: map<string, string>, name: string, value: Option<string>) {
    if value.None? then name !in params else name in params && params[name] == value.value
  }

  lemma NameIs(k: Key, name: string)
    ensures IsNamed(k, name) <==> name == Name(k)
  { }

  lemma NamedHas(m: Params, k: Key)
    ensures Has(Named(m), Name(k), Of(m, k))
  {
    GetNamed(m, k);
  }

  lemma LanguageAlone(lang: Language, k: Key)
    ensures Of(LanguageParams(lang), k) == if k.Lang? then When(lang.English?, "en") else None
  { }

  lemma InboxCarries<F>(codec: Codec<F>, m: Params, q: InboxQueue, query: Query<F>, k: Key)
    requires m.Keys <= {Lang}
    ensures Of(InboxParams(codec, m, q, query), k) == if k.Lang? then Of(m, k) else InboxCarried(codec, q, query, k)
  {
    InboxEntries(codec, m, q, query);
  }

  /** Which of the ten filters a parameter is, and what it is set to. */
  function FilterOf(a: Analytics, k: Key): Option<(nat, string)> {
    match k
    case From => Some((0, a.from)) case To => Some((1, a.to)) case AgentFilter => Some((2, a.agentId))
    case Team => Some((3, a.teamId)) case Channel => Some((4, a.channel)) case Connection => Some((5, a.connectionId))
    case Label => Some((6, a.labelId)) case Campaign => Some((7, a.campaignId)) case Priority => Some((8, a.priority))
    case Status => Some((9, a.status)) case _ => None
  }

  lemma FilterPlaces(a: Analytics, k: Key)
    ensures match FilterOf(a, k)
            case Some((i, value)) => i < 10 && ANALYTICS_KEYS[i] == k && AnalyticsValues(a)[i] == value
            case None => k !in ANALYTICS_KEYS
  {
    var keys := ANALYTICS_KEYS;
    assert keys == [keys[0], keys[1], keys[2], keys[3], keys[4], keys[5], keys[6], keys[7], keys[8], keys[9]];
  }

  lemma {:induction false} PutAllEntry(m: Params, keys: seq<Key>, values: seq<string>, i: nat)
    requires |keys| == |values| && i < |keys| && keys[i] !in m
    requires forall x, y :: 0 <= x < y < |keys| ==> keys[x] != keys[y]
    ensures Of(PutAll(m, keys, values), keys[i]) == When(values[i] != "", values[i])
  {
    var n := |keys| - 1;
    if i < n {
      PutAllEntry(m, keys[..n], values[..n], i);
    } else {
      PutAllOf(m, keys[..n], values[..n], keys[n]);
    }
  }

  lemma FilterCarries(m: Params, a: Analytics, k: Key)
    requires m.Keys <= {Lang, View}
    ensures Of(PutAll(m, ANALYTICS_KEYS, AnalyticsValues(a)), k) ==
      match FilterOf(a, k)
      case Some((_, value)) => When(value != "", value)
      case None => Of(m, k)
  {
    FilterPlaces(a, k);
    match FilterOf(a, k)
    case Some((i, _)) => PutAllEntry(m, ANALYTICS_KEYS, AnalyticsValues(a), i);
    case None => PutAllOf(m, ANALYTICS_KEYS, AnalyticsValues(a), k);
  }

  function NotEmpty(value: Option<string>): Option<string> {
    if value == Some("") then None else value
  }

  lemma OwnIs(given: map<string, string>, k: Key, name: string)
    requires IsNamed(k, name)
    ensures Own(given, name) == NotEmpty(Given(given)(k))
  {
    NameIs(k, name);
  }

  lemma AgentCarries(m: Params, view: string, a: Analytics, given: map<string, string>, k: Key)
    requires m.Keys <= {Lang} && k.Agent?
    ensures Of(AnalyticsParams(m, view, a, Get(given, Agent)), k) == AnalyticsCarried(view, a, given, k)
  {
    FilterCarries(PutIf(m, view != DEFAULT_VIEW, View, view), a, k);
    UuidMeans(if "agent" in given then given["agent"] else "");
  }

  lemma AnalyticsCarries(m: Params, view: string, a: Analytics, given: map<string, string>, k: Key)
    requires m.Keys <= {Lang}
    ensures Of(AnalyticsParams(m, view, a, Get(given, Agent)), k) ==
      if k.Lang? then Of(m, k) else AnalyticsCarried(view, a, given, k)
  {
    if k.Agent? {
      AgentCarries(m, view, a, given, k);
    } else {
      FilterCarries(PutIf(m, view != DEFAULT_VIEW, View, view), a, k);
    }
  }

  lemma RolesCarry(m: Params, given: map<string, string>, k: Key)
    requires m.Keys <= {Lang}
    ensures Of(ScreenParams(m, "roles", Given(given)), k) == if k.Lang? then Of(m, k)
      else ScreenCarried("roles", given, k)
  {
    OwnIs(given, Role, "role");
    OwnIs(given, Tab, "tab");
  }

  lemma AutomationsCarry(m: Params, given: map<string, string>, k: Key)
    requires m.Keys <= {Lang}
    ensures Of(ScreenParams(m, "automations", Given(given)), k) ==
      if k.Lang? then Of(m, k) else ScreenCarried("automations", given, k)
  {
    OwnIs(given, Edit, "edit");
    OwnIs(given, View, "view");
  }

  lemma ScreenCarries(m: Params, screen: string, given: map<string, string>, k: Key)
    requires m.Keys <= {Lang}
    ensures Of(ScreenParams(m, screen, Given(given)), k) == if k.Lang? then Of(m, k)
      else ScreenCarried(screen, given, k)
  {
    if screen == "roles" {
      RolesCarry(m, given, k);
    } else if screen == "automations" {
      AutomationsCarry(m, given, k);
    } else {
      OthersCarry(m, screen, given, k);
    }
  }

  lemma OthersCarry(m: Params, screen: string, given: map<string, string>, k: Key)
    requires m.Keys <= {Lang} && screen != "roles" && screen != "automations"
    ensures Of(ScreenParams(m, screen, Given(given)), k) == if k.Lang? then Of(m, k)
      else ScreenCarried(screen, given, k)
  {
    OwnIs(given, Token, "token");
    OwnIs(given, Team, "team");
    OwnIs(given, Tab, "tab");
  }

  lemma ProjectionCarries<F>(codec: Codec<F>, s: State<F>, k: Key)
    ensures Of(Projected(codec, s), k) == Carried(codec, s, k)
  {
    var m := LanguageParams(s.lang);
    LanguageAlone(s.lang, k);
    if s.route.screen == "inbox" {
      InboxCarries(codec, m, s.inboxQueue, s.query, k);
    } else if s.route.screen == "analytics" {
      AnalyticsCarries(m, s.view, s.analytics, s.route.params, k);
    } else {
      ScreenCarries(m, s.route.screen, s.route.params, k);
    }
  }

  /** A link carries exactly these parameters with exactly these values, on every screen, under exactly these names. */
  lemma LinkCarries<F>(codec: Codec<F>, s: State<F>, k: Key, name: string)
    requires IsNamed(k, name)
    ensures Has(Named(Projected(codec, s)), name, Carried(codec, s, k))
    ensures forall other :: other in Named(Projected(codec, s)) ==> exists j :: IsNamed(j, other)
  {
    NameIs(k, name);
    NamedHas(Projected(codec, s), k);
    ProjectionCarries(codec, s, k);
    forall other | other in Named(Projected(codec, s)) ensures exists j :: IsNamed(j, other) {
      var j :| j in Projected(codec, s) && Name(j) == other;
      NameIs(j, other);
    }
  }

  lemma UuidMeans(s: string)
    ensures IsUuid(s) <==> Uuid(s)
  {
    if IsUuid(s) {
      UuidSplits(s);
    }
    if a, b, c, d, e :| UuidOf(s, a, b, c, d, e) {
      UuidJoins(s, a, b, c, d, e);
    }
  }

  lemma HexMeans(s: string, n: nat)
    ensures HexDigits(s, n) <==> |s| == n && forall i :: 0 <= i < n ==> Hex(s[i])
  {
    var all := "0123456789abcdefABCDEF";
    assert forall x: char :: x in all <==> x in {
      all[0], all[1], all[2], all[3], all[4], all[5], all[6], all[7], all[8], all[9], all[10], all[11], all[12],
        all[13],
      all[14], all[15], all[16], all[17], all[18], all[19], all[20], all[21]};
  }

  lemma UuidSplits(s: string)
    requires IsUuid(s)
    ensures Uuid(s)
  {
    var a, b, c, d, e := s[..8], s[9..13], s[14..18], s[19..23], s[24..];
    HexMeans(a, 8);
    HexMeans(b, 4);
    HexMeans(c, 4);
    HexMeans(d, 4);
    HexMeans(e, 12);
    assert s == a + "-" + b + "-" + c + "-" + d + "-" + e;
    assert UuidOf(s, a, b, c, d, e);
  }

  lemma UuidJoins(s: string, a: string, b: string, c: string, d: string, e: string)
    requires UuidOf(s, a, b, c, d, e)
    ensures IsUuid(s)
  {
    HexMeans(a, 8);
    HexMeans(b, 4);
    HexMeans(c, 4);
    HexMeans(d, 4);
    HexMeans(e, 12);
    forall i | 0 <= i < 36 && i !in {8, 13, 18, 23} ensures Hex(s[i]) {
      assert s[i] == if i < 8 then a[i] else if i < 13 then b[i - 9] else if i < 18 then c[i - 14] else if i < 23
        then d[i - 19]
        else e[i - 24];
    }
  }

  // ---- Links from elsewhere -------------------------------------------------------------

  /**
   * What a link to the inbox opens, whoever wrote it: the scope alone opens everything, an
   * order it does not know is the default one, and filters come back only if all are admitted.
   */
  lemma InboxLinkOpens<F>(codec: Codec<F>, s: State<F>, route: Route)
    requires route.screen == "inbox"
    ensures var z := Applied(codec, s, route); var given := route.params;
      var all := Has(given, "queue", Some("all")) || Has(given, "scope", Some("all"));
      && z.route == route && z.view == s.view && z.analytics == s.analytics
      && (z.inboxQueue.Mine? <==> Has(given, "queue", Some("mine")))
      && (z.inboxQueue.All? <==> all && !z.inboxQueue.Mine?)
      && (z.query.queue.Everyone? <==> all)
      && z.query.search == None && z.query.cursor == None && z.query.limit == 50
  { }

  predicate KnownSort(sort: string) {
    sort in {"activity_desc", "activity_asc", "created_desc", "created_asc", "waiting_desc", "priority_desc"}
  }

  lemma SortOpens<F>(codec: Codec<F>, s: State<F>, route: Route)
    requires route.screen == "inbox"
    ensures Applied(codec, s, route).query.sort ==
      if "sort" in route.params && KnownSort(route.params["sort"]) then route.params["sort"] else "activity_desc"
  { }

  /** The characters UTF-16 needs two units for. */
  function Wide(s: string): nat {
    if s == "" then 0 else Wide(s[..|s| - 1]) + (if s[|s| - 1] as int > 0xffff then 1 else 0)
  }

  lemma {:induction false} UnitsMore(s: string, c: char)
    ensures Units(s + [c]) == Units(s) + (if c as int > 0xffff then 2 else 1)
  {
    if s == "" {
      assert s + [c] == [c] && [c][1..] == "";
    } else {
      assert (s + [c])[1..] == s[1..] + [c];
      UnitsMore(s[1..], c);
    }
  }

  lemma {:induction false} UnitsMean(s: string)
    ensures Units(s) == |s| + Wide(s)
  {
    if s != "" {
      UnitsMean(s[..|s| - 1]);
      UnitsMore(s[..|s| - 1], s[|s| - 1]);
      assert s[..|s| - 1] + [s[|s| - 1]] == s;
    }
  }

  ghost predicate Usable<F>(codec: Codec<F>, text: string, filters: seq<F>) {
    && |text| + Wide(text) <= 6000 && codec.parse(text) == Some(filters) && |filters| <= 20
    && forall i :: 0 <= i < |filters| ==> codec.admits(filters[i])
  }

  lemma FiltersOpen<F>(codec: Codec<F>, s: State<F>, route: Route)
    requires route.screen == "inbox"
    ensures var filters := Applied(codec, s, route).query.filters; var given := route.params;
      && (filters != [] ==> "filters" in given && Usable(codec, given["filters"], filters))
      && forall fs :: "filters" in given && Usable(codec, given["filters"], fs) ==> filters == fs
  {
    if "filters" in route.params {
      UnitsMean(route.params["filters"]);
    }
  }

  predicate KnownView(view: string) {
    view in {"overview", "agents", "teams", "responses", "resolutions", "assignments", "channels", "campaigns"}
  }

  /** The older name of the overview keeps its meaning, and a view it does not know is the campaigns. */
  lemma AnalyticsLinkOpens<F>(codec: Codec<F>, s: State<F>, route: Route)
    requires route.screen == "analytics"
    ensures var z := Applied(codec, s, route); var given := route.params;
      && z.route == route && z.inboxQueue == s.inboxQueue && z.query == s.query
      && z.view == if Has(given, "view", Some("operations")) then "overview"
                   else if "view" in given && KnownView(given["view"]) then given["view"]
                   else "campaigns"
  { }

  /** A link without a language keeps the one in use. */
  lemma LanguageOpens<F>(codec: Codec<F>, s: State<F>, route: Route)
    ensures var z := Applied(codec, s, route);
      z.lang == if Has(route.params, "lang", Some("en")) then English
                else if Has(route.params, "lang", Some("ar")) then Arabic else s.lang
    ensures route.screen != "inbox" ==>
      Applied(codec, s, route).inboxQueue == s.inboxQueue && Applied(codec, s, route).query == s.query
  { }
}
