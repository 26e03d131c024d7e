/** The screen's state and the location kept in step: writing the URL, reading it back, and that this settles. */
module UrlSync {
  import opened Shared
  import Router
  import opened UrlState

  class App<F> {
    var lang: Language
    var route: Route
    var inboxQueue: InboxQueue
    var query: Query<F>
    var view: string
    var analytics: Analytics
    const host: Router.Host

    constructor (host: Router.Host)
      ensures this.host == host
      ensures Here() == State(Arabic, Router.Route(Router.INBOX, None, map[]), Unassigned,
                              Query(MineOnly, DEFAULT_SORT, [], None, None, DEFAULT_LIMIT), DEFAULT_VIEW,
                              Analytics("", "", "", "", "", "", "", "", "", ""))
    {
      this.host := host;
      lang, route, inboxQueue := Arabic, Router.Route(Router.INBOX, None, map[]), Unassigned;
      query := Query(MineOnly, DEFAULT_SORT, [], None, None, DEFAULT_LIMIT);
      view, analytics := DEFAULT_VIEW, Analytics("", "", "", "", "", "", "", "", "", "");
    }

    function Here(): State<F>
      reads this
    {
      State(lang, route, inboxQueue, query, view, analytics)
    }

    method ApplyRoute(codec: Codec<F>, to: Route)
      modifies this
      ensures Here() == Applied(codec, old(Here()), to)
    {
      var params := to.params;
      route := to;
      var given := Get(params, Lang);
      if given == Some("en") { lang := English; } else if given == Some("ar") { lang := Arabic; }
      if to.screen == "inbox" {
        var queue, scope := Get(params, Queue), Get(params, Scope);
        inboxQueue := QueueFrom(queue, scope);
        query := QueryFrom(codec, queue, scope, Get(params, Sort), Get(params, Filters));
      }
      if to.screen == "analytics" {
        view := ViewFrom(Get(params, View));
        analytics := AnalyticsFrom(Given(params));
      }
    }

    /** The record built up parameter by parameter. */
    method RouteParams(codec: Codec<F>) returns (params: Params)
      ensures params == Projected(codec, Here())
    {
      params := map[];
      if lang.English? { params := params[Lang := "en"]; }
      if route.screen == "inbox" {
        if !inboxQueue.Unassigned? { params := params[Queue := QueueName(inboxQueue)]; }
        if !query.queue.MineOnly? && inboxQueue.Mine? { params := params[Scope := "all"]; }
        if query.sort != DEFAULT_SORT { params := params[Sort := query.sort]; }
        if |query.filters| > 0 { params := params[Filters := codec.stringify(query.filters)]; }
      } else if route.screen == "analytics" {
        if view != DEFAULT_VIEW { params := params[View := view]; }
        params := FilterParams(params);
        var agent := Get(route.params, Agent);
        if agent.Some? && IsUuid(agent.value) { params := params[Agent := agent.value]; }
      } else {
        params := ScreenParams(params, route.screen, Given(route.params));
      }
    }

    method FilterParams(given: Params) returns (params: Params)
      ensures params == PutAll(given, ANALYTICS_KEYS, AnalyticsValues(analytics))
    {
      params := given;
      var values := AnalyticsValues(analytics);
      for i := 0 to |values|
        invariant params == PutAll(given, ANALYTICS_KEYS[..i], values[..i])
      {
        assert ANALYTICS_KEYS[..i + 1][..i] == ANALYTICS_KEYS[..i] && values[..i + 1][..i] == values[..i];
        if values[i] != "" { params := params[ANALYTICS_KEYS[i] := values[i]]; }
      }
      assert ANALYTICS_KEYS[..|values|] == ANALYTICS_KEYS && values[..|values|] == values;
    }

    /** Writes the state to the location; says whether that changed it. */
    method SyncUrl(codec: Codec<F>) returns (changed: bool)
      modifies this`route, host
      ensures route == Next(codec, old(Here()))
      ensures host.location == HashOf(codec, old(Here())) && (changed <==> host.location != old(host.location))
      ensures host.writes == old(host.writes) + (if changed then 1 else 0)
    {
      ghost var was := Here();
      var params := RouteParams(codec);
      var next := Router.Route(route.screen, route.conversation, Named(params));
      route := next;
      changed := WriteNext(codec, was, params, next);
    }

    method WriteNext(codec: Codec<F>, ghost s: State<F>, params: Params, next: Route) returns (changed: bool)
      requires params == Projected(codec, s) && next == Next(codec, s)
      modifies host
      ensures host.location == HashOf(codec, s) && (changed <==> host.location != old(host.location))
      ensures host.writes == old(host.writes) + (if changed then 1 else 0)
    {
      OrderNamed(params);
      changed := host.WriteRoute(next, OrderOf(params));
    }
  }

  function Next<F>(codec: Codec<F>, s: State<F>): Route {
    Router.Route(s.route.screen, s.route.conversation, Named(Projected(codec, s)))
  }

  function HashOf<F>(codec: Codec<F>, s: State<F>): string {
    OrderNamed(Projected(codec, s));
    Router.FormatHash(Next(codec, s), OrderOf(Projected(codec, s)))
  }

  // ---- The order of a projection ----------------------------------------------------

  function Present(m: Params, keys: seq<Key>): seq<Key> {
    if keys == [] then [] else (if keys[0] in m then [keys[0]] else []) + Present(m, keys[1..])
  }

  function OrderOf(m: Params): seq<string> {
    var ks := Present(m, KEYS);
    seq(|ks|, i requires 0 <= i < |ks| => Name(ks[i]))
  }

  lemma {:induction false} PresentKeys(m: Params, keys: seq<Key>)
    requires forall i, j :: 0 <= i < j < |keys| ==> keys[i] != keys[j]
    ensures forall k :: k in Present(m, keys) <==> k in keys && k in m
    ensures forall i, j :: 0 <= i < j < |Present(m, keys)| ==> Present(m, keys)[i] != Present(m, keys)[j]
  {
    if keys != [] {
      PresentKeys(m, keys[1..]);
      assert forall k :: k in keys <==> k == keys[0] || k in keys[1..];
      assert keys[0] !in keys[1..];
    }
  }

  lemma AllKeys(k: Key)
    ensures k in KEYS
  {
    assert KEYS[0] == Lang && KEYS[1] == Queue && KEYS[2] == Scope && KEYS[3] == Sort && KEYS[4] == Filters
      && KEYS[5] == View && KEYS[6] == From && KEYS[7] == To && KEYS[8] == AgentFilter && KEYS[9] == Team
      && KEYS[10] == Channel && KEYS[11] == Connection && KEYS[12] == Label && KEYS[13] == Campaign
      && KEYS[14] == Priority
      && KEYS[15] == Status && KEYS[16] == Agent && KEYS[17] == Token && KEYS[18] == Role && KEYS[19] == Tab
      && KEYS[20] == Edit;
  }

  lemma KeyNamed(m: Params, name: string) returns (k: Key)
    requires name in Named(m)
    ensures k in m && name == Name(k)
  {
    k :| k in m && KeyOf(Name(k)) == Some(k) && name == Name(k);
  }

  /** The place of each parameter in the order. */
  function Rank(k: Key): nat {
    match k
    case Lang => 0 case Queue => 1 case Scope => 2 case Sort => 3 case Filters => 4 case View => 5
    case From => 6 case To => 7
    case AgentFilter => 8 case Team => 9 case Channel => 10 case Connection => 11 case Label => 12 case Campaign => 13
    case Priority => 14 case Status => 15 case Agent => 16 case Token => 17 case Role => 18
    case Tab => 19 case Edit => 20
  }

  lemma RanksInOrder(keys: seq<Key>)
    requires keys == KEYS
    ensures forall i :: 0 <= i < |keys| ==> Rank(keys[i]) == i
  { }

  lemma KeysDistinct(keys: seq<Key>)
    requires keys == KEYS
    ensures forall i, j :: 0 <= i < j < |keys| ==> keys[i] != keys[j]
  {
    RanksInOrder(keys);
  }

  lemma {:induction false} KeyPresent(m: Params, keys: seq<Key>, k: Key) returns (i: nat)
    requires k in m && k in keys
    ensures i < |Present(m, keys)| && Present(m, keys)[i] == k
    decreases |keys|
  {
    if keys[0] == k {
      i := 0;
    } else {
      i := KeyPresent(m, keys[1..], k);
      i := if keys[0] in m then i + 1 else i;
    }
  }

  lemma OrderComplete(m: Params, name: string)
    requires name in Named(m)
    ensures name in OrderOf(m)
  {
    var k := KeyNamed(m, name);
    AllKeys(k);
    var i := KeyPresent(m, KEYS, k);
    var names := OrderOf(m);
    assert names[i] == name;
  }

  lemma NamesOrdered(m: Params, keys: seq<Key>, ks: seq<Key>, names: seq<string>)
    requires ks == Present(m, keys) && names == seq(|ks|, i requires 0 <= i < |ks| => Name(ks[i]))
    requires forall i, j :: 0 <= i < j < |keys| ==> keys[i] != keys[j]
    ensures forall i :: 0 <= i < |names| ==> names[i] in Named(m)
    ensures forall i, j :: 0 <= i < j < |names| ==> names[i] != names[j]
  {
    PresentKeys(m, keys);
    forall i | 0 <= i < |names| ensures names[i] in Named(m) {
      assert ks[i] in ks;
      GetNamed(m, ks[i]);
    }
    forall i, j | 0 <= i < j < |names| ensures names[i] != names[j] {
      NamesDistinct(ks[i]);
      NamesDistinct(ks[j]);
    }
  }

  lemma OrderNamed(m: Params)
    ensures Router.Order(Named(m), OrderOf(m))
  {
    KeysDistinct(KEYS);
    NamesOrdered(m, KEYS, Present(m, KEYS), OrderOf(m));
    forall name | name in Named(m) ensures name in OrderOf(m) { OrderComplete(m, name); }
  }

  // ---- Settling ---------------------------------------------------------------------

  lemma ValuesNonEmpty<F(!new)>(codec: Codec<F>, s: State<F>, p: Params, k: Key)
    requires RoundTrips(codec) && Typed(s) && p == Projected(codec, s) && k in p
    ensures p[k] != ""
  {
    var m := LanguageParams(s.lang);
    if s.route.screen == "inbox" {
      InboxNonEmpty(codec, m, s.inboxQueue, s.query, k);
    } else if s.route.screen == "analytics" {
      AllFilled(PutIf(m, s.view != DEFAULT_VIEW, View, s.view), ANALYTICS_KEYS, AnalyticsValues(s.analytics), k);
    } else {
      ScreenNonEmpty(m, s.route.screen, Given(s.route.params), k);
    }
  }

  lemma InboxNonEmpty<F(!new)>(codec: Codec<F>, m: Params, q: InboxQueue, query: Query<F>, k: Key)
    requires RoundTrips(codec) && query.sort in SORTS && forall j :: j in m ==> m[j] != ""
    ensures k in InboxParams(codec, m, q, query) ==> InboxParams(codec, m, q, query)[k] != ""
  { }

  lemma ScreenNonEmpty(m: Params, screen: string, given: Key -> Option<string>, k: Key)
    requires forall j :: j in m ==> m[j] != ""
    ensures k in ScreenParams(m, screen, given) ==> ScreenParams(m, screen, given)[k] != ""
  { }

  lemma {:induction false} AllFilled(m: Params, keys: seq<Key>, values: seq<string>, k: Key)
    requires |keys| == |values| && forall j :: j in m ==> m[j] != ""
    ensures k in PutAll(m, keys, values) ==> PutAll(m, keys, values)[k] != ""
  {
    if keys != [] {
      AllFilled(m, keys[..|keys| - 1], values[..|keys| - 1], k);
    }
  }

  lemma NamedStorable(m: Params)
    requires forall k :: k in m ==> m[k] != ""
    ensures Router.Storable(Named(m)) == Named(m)
  {
    forall name | name in Named(m) ensures Named(m)[name] != "" && name != Router.PROTO {
      var k :| k in m && KeyOf(Name(k)) == Some(k) && name == Name(k);
      NamesDistinct(k);
    }
  }

  lemma NamedInjective(m: Params, n: Params)
    requires Named(m) == Named(n)
    ensures m == n
  {
    forall k ensures Of(m, k) == Of(n, k) {
      GetNamed(m, k);
      GetNamed(n, k);
    }
    assert forall k :: k in m <==> Of(m, k).Some?;
    assert forall k :: k in n <==> Of(n, k).Some?;
    forall k | k in m ensures m[k] == n[k] {
      assert Of(m, k) == Of(n, k);
    }
  }

  /** Reading back a synchronized location: the projection, and the conversation in normal form. */
  lemma LocationReads<F(!new)>(codec: Codec<F>, s: State<F>) returns (read: Route)
    requires RoundTrips(codec) && Typed(s) && s.route.screen in Router.SCREENS
    ensures Router.Parse(HashOf(codec, s)) == Some(read)
    ensures read.screen == s.route.screen && read.params == Named(Projected(codec, s))
    ensures read.conversation ==
            if s.route.screen == Router.INBOX && s.route.conversation != Some("") then s.route.conversation else None
  {
    var p := Projected(codec, s);
    forall k | k in p ensures p[k] != "" { ValuesNonEmpty(codec, s, p, k); }
    NamedStorable(p);
    OrderNamed(p);
    Router.PrintedRouteParses(Next(codec, s), OrderOf(p));
    read := Router.Normal(Next(codec, s));
  }

  lemma AppliedTyped<F>(codec: Codec<F>, s: State<F>, route: Route)
    requires Typed(s)
    ensures Typed(Applied(codec, s, route))
  {
    assert SORTS[0] == DEFAULT_SORT && VIEWS[7] == DEFAULT_VIEW;
  }

  /** What is projected does not depend on which conversation is open, nor what is applied on the route before. */
  lemma ConversationAside<F>(codec: Codec<F>, s: State<F>, r: Route, q: Route, before: Route)
    returns (t: State<F>, u: State<F>)
    requires r.screen == q.screen && r.params == q.params
    ensures t == Applied(codec, s, r) && u == Applied(codec, s.(route := before), q)
    ensures Projected(codec, u) == Projected(codec, t) && u.route == q
  {
    t, u := Applied(codec, s, r), Applied(codec, s.(route := before), q);
  }

  /** A hash names its path: with the same parameters, an empty conversation id shows. */
  lemma EmptyIdShows(r: Route, q: Route, keys: seq<string>)
    requires Router.Order(r.params, keys) && q.params == r.params && r.screen == q.screen
    requires if r.screen == Router.INBOX && r.conversation == Some("") then q.conversation.None?
             else r.screen == Router.INBOX ==> q.conversation == r.conversation
    ensures Router.FormatHash(q, keys) == Router.FormatHash(r, keys) <==>
      !(r.screen == Router.INBOX && r.conversation == Some(""))
  {
    if r.screen == Router.INBOX && r.conversation == Some("") {
      assert |Router.Path(r)| == |Router.Path(q)| + 1;
      assert |Router.FormatHash(r, keys)| == |Router.FormatHash(q, keys)| + 1;
    } else {
      assert Router.Path(r) == Router.Path(q);
    }
  }

  /** Reading the location back and synchronizing again, with the projection the same or not. */
  lemma SecondSync<F(!new)>(codec: Codec<F>, s: State<F>, u: State<F>, read: Route, p: Params, p2: Params)
    requires RoundTrips(codec) && Typed(s) && Typed(u) && s.route.screen in Router.SCREENS && u.route == read
    requires p == Projected(codec, s) && p2 == Projected(codec, u) && Router.Parse(HashOf(codec, s)) == Some(read)
    ensures HashOf(codec, u) == HashOf(codec, s) <==>
      p2 == p && !(s.route.screen == Router.INBOX && s.route.conversation == Some(""))
  {
    var read1 := LocationReads(codec, s);
    var read2 := LocationReads(codec, u);
    OrderNamed(p);
    if p2 == p {
      EmptyIdShows(Next(codec, s), Next(codec, u), OrderOf(p));
    } else if Named(p2) == Named(p) {
      NamedInjective(p2, p);
    }
  }

  /**
   * The URL settles: the location a synchronization wrote, read back and synchronized
   * again, is written the same. In the inbox this holds exactly when the filters are ones
   * the reader accepts and the conversation id is not the empty text; elsewhere always.
   */
  lemma SyncSettlesIff<F(!new)>(codec: Codec<F>, s: State<F>)
    requires RoundTrips(codec) && Typed(s) && s.route.screen in Router.SCREENS
    ensures Router.Parse(HashOf(codec, s)).Some?
    ensures var again := Applied(codec, s.(route := Next(codec, s)), Router.Parse(HashOf(codec, s)).value);
      HashOf(codec, again) == HashOf(codec, s) <==>
      (s.route.screen == Router.INBOX ==> Admitted(codec, s.query.filters) && s.route.conversation != Some(""))
  {
    var read := LocationReads(codec, s);
    var p := Projected(codec, s);
    var t, u := ConversationAside(codec, s, s.route.(params := Named(p)), read, Next(codec, s));
    AppliedTyped(codec, s.(route := Next(codec, s)), read);
    SecondSync(codec, s, u, read, p, Projected(codec, u));
    ProjectionFixed(codec, s);
  }
}
