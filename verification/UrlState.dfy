/**
 * The part of the screen's state that the URL carries: projected to parameters, applied
 * from them, and kept in step with the location. The inbox filters travel as JSON, whose
 * codec is a parameter.
 */
module UrlState {
  import opened Shared
  import Router

  type Route = Router.Route

  /** The parameters the application knows. */
  datatype Key =
    | Lang | Queue | Scope | Sort | Filters
    | View | From | To | AgentFilter | Team | Channel | Connection | Label | Campaign
    | Priority | Status | Agent | Token | Role | Tab | Edit

  function Name(k: Key): string {
    match k
    case Lang => "lang" case Queue => "queue" case Scope => "scope" case Sort => "sort" case Filters => "filters"
    case View => "view" case From => "from" case To => "to" case AgentFilter => "agentFilter" case Team => "team"
    case Channel => "channel" case Connection => "connection" case Label => "label" case Campaign => "campaign"
    case Priority => "priority" case Status => "status" case Agent => "agent" case Token => "token" case Role => "role"
    case Tab => "tab" case Edit => "edit"
  }

  /** The order in which a projection lists its entries. */
  const KEYS: seq<Key> := [Lang, Queue, Scope, Sort, Filters, View, From, To, AgentFilter, Team, Channel, Connection,
                           Label, Campaign, Priority, Status, Agent, Token, Role, Tab, Edit]

  function KeyOf(name: string): Option<Key> {
    if name == "lang" then Some(Lang) else if name == "queue" then Some(Queue) else if name == "scope" then Some(Scope)
    else if name == "sort" then Some(Sort) else if name == "filters" then Some(Filters)
    else if name == "view" then Some(View)
    else if name == "from" then Some(From) else if name == "to" then Some(To)
    else if name == "agentFilter" then Some(AgentFilter)
    else if name == "team" then Some(Team) else if name == "channel" then Some(Channel)
    else if name == "connection" then Some(Connection) else if name == "label" then Some(Label)
    else if name == "campaign" then Some(Campaign) else if name == "priority" then Some(Priority)
    else if name == "status" then Some(Status) else if name == "agent" then Some(Agent)
    else if name == "token" then Some(Token)
    else if name == "role" then Some(Role) else if name == "tab" then Some(Tab) else if name == "edit" then Some(Edit)
    else None
  }

  /** Every parameter has its own name, and none is the name a plain object cannot store. */
  lemma NamesDistinct(k: Key)
    ensures KeyOf(Name(k)) == Some(k) && Name(k) != Router.PROTO
  { }

  type Params = map<Key, string>

  function Named(m: Params): map<string, string> {
    map name | name in Names(m) :: m[KeyOf(name).value]
  }

  function Names(m: Params): set<string> {
    set k | k in m && KeyOf(Name(k)) == Some(k) :: Name(k)
  }

  function Get(params: map<string, string>, k: Key): Option<string> {
    if Name(k) in params then Some(params[Name(k)]) else None
  }

  lemma GetNamed(m: Params, k: Key)
    ensures Get(Named(m), k) == if k in m then Some(m[k]) else None
  {
    NamesDistinct(k);
    assert Name(k) in Names(m) <==> k in m;
  }

  // ---- State ------------------------------------------------------------------------

  datatype Language = Arabic | English
  datatype InboxQueue = Unassigned | Mine | All
  datatype QueryQueue = MineOnly | Everyone
  datatype Query<F> = Query(queue: QueryQueue, sort: string, filters: seq<F>, search: Option<string>,
                            cursor: Option<string>, limit: nat)
  datatype Analytics = Analytics(
    from: string, to: string, agentId: string, teamId: string, channel: string, connectionId: string, labelId: string,
    campaignId: string, priority: string, status: string)

  datatype State<F> = State(lang: Language, route: Route, inboxQueue: InboxQueue, query: Query<F>, view: string,
                            analytics: Analytics)

  /** How filters are written and read, and which of them the reader admits one by one. */
  datatype Codec<!F> = Codec(stringify: seq<F> -> string, parse: string -> Option<seq<F>>, admits: F -> bool)

  const SORTS := ["activity_desc", "activity_asc", "created_desc", "created_asc", "waiting_desc", "priority_desc"]
  const DEFAULT_SORT := "activity_desc"
  const VIEWS := ["overview", "agents", "teams", "responses", "resolutions", "assignments", "channels", "campaigns"]
  const DEFAULT_VIEW := "campaigns"
  const AUTOMATION_VIEWS := ["templates", "mine", "runs"]
  const MAX_FILTER_TEXT: nat := 6000
  const MAX_FILTERS: nat := 20
  const DEFAULT_LIMIT: nat := 50

  /** What the application's types admit. */
  predicate Typed<F>(s: State<F>) {
    s.query.sort in SORTS && s.view in VIEWS
  }

  // ---- Reading filters --------------------------------------------------------------

  /** Length in UTF-16 code units. */
  function Units(s: string): nat {
    if s == "" then 0 else (if s[0] as int >= 0x10000 then 2 else 1) + Units(s[1..])
  }

  function ReadFilters<F>(codec: Codec<F>, value: Option<string>): seq<F> {
    if value.None? || Units(value.value) > MAX_FILTER_TEXT then []
    else
      var parsed := codec.parse(value.value);
      if parsed.None? || |parsed.value| > MAX_FILTERS then []
      else if forall i :: 0 <= i < |parsed.value| ==> codec.admits(parsed.value[i]) then parsed.value
      else []
  }

  // ---- State to parameters ----------------------------------------------------------

  function PutIf(m: Params, when: bool, k: Key, value: string): Params {
    if when then m[k := value] else m
  }

  function QueueName(q: InboxQueue): string {
    match q case Unassigned => "unassigned" case Mine => "mine" case All => "all"
  }

  function InboxParams<F>(codec: Codec<F>, m: Params, inboxQueue: InboxQueue, query: Query<F>): Params {
    var m1 := PutIf(m, !inboxQueue.Unassigned?, Queue, QueueName(inboxQueue));
    var m2 := PutIf(m1, !query.queue.MineOnly? && inboxQueue.Mine?, Scope, "all");
    var m3 := PutIf(m2, query.sort != DEFAULT_SORT, Sort, query.sort);
    if |query.filters| > 0 then m3[Filters := codec.stringify(query.filters)] else m3
  }

  const ANALYTICS_KEYS: seq<Key> := [From, To, AgentFilter, Team, Channel, Connection, Label, Campaign, Priority,
      Status]

  function AnalyticsValues(a: Analytics): (values: seq<string>)
    ensures |values| == 10
  {
    [a.from, a.to, a.agentId, a.teamId, a.channel, a.connectionId, a.labelId, a.campaignId, a.priority, a.status]
  }

  /** One parameter for every filter that is set. */
  function PutAll(m: Params, keys: seq<Key>, values: seq<string>): Params
    requires |keys| == |values|
  {
    if keys == [] then m
    else
      var n := |keys| - 1;
      var before := PutAll(m, keys[..n], values[..n]);
      if values[n] == "" then before else before[keys[n] := values[n]]
  }

  function AnalyticsParams(m: Params, view: string, a: Analytics, agent: Option<string>): Params {
    var filled := PutAll(PutIf(m, view != DEFAULT_VIEW, View, view), ANALYTICS_KEYS, AnalyticsValues(a));
    if agent.Some? && IsUuid(agent.value) then filled[Agent := agent.value] else filled
  }

  predicate Hex(c: char) {
    '0' <= c <= '9' || 'a' <= c <= 'f' || 'A' <= c <= 'F'
  }

  predicate IsUuid(s: string) {
    && |s| == 36 && s[8] == '-' && s[13] == '-' && s[18] == '-' && s[23] == '-'
    && (forall i :: 0 <= i < 36 && i !in {8, 13, 18, 23} ==> Hex(s[i]))
    && '1' <= s[14] <= '8' && s[19] in "89abAB"
  }

  function Filled(o: Option<string>): bool {
    o.Some? && o.value != ""
  }

  function PutSome(m: Params, when: bool, k: Key, o: Option<string>): Params {
    if when && Filled(o) then m[k := o.value] else m
  }

  /** What a screen keeps of the parameters it was opened with. */
  function ScreenParams(m: Params, screen: string, given: Key -> Option<string>): Params {
    if screen == "accept-invitation" || screen == "reset-password" then PutSome(m, true, Token, given(Token))
    else if screen == "people" then PutIf(m, given(Tab) == Some("invitations"), Tab, "invitations")
    else if screen == "roles" then
      PutIf(PutSome(m, true, Role, given(Role)), Filled(given(Role)) && given(Tab) == Some("users"), Tab, "users")
    else if screen == "teams" then PutSome(m, true, Team, given(Team))
    else if screen == "automations" then
      var viewed := PutSome(m, given(View).Some? && given(View).value in AUTOMATION_VIEWS, View, given(View));
      PutSome(viewed, true, Edit, given(Edit))
    else m
  }

  function Given(params: map<string, string>): Key -> Option<string> {
    k => Get(params, k)
  }

  function Projected<F>(codec: Codec<F>, s: State<F>): Params {
    var m := PutIf(map[], s.lang.English?, Lang, "en");
    if s.route.screen == "inbox" then InboxParams(codec, m, s.inboxQueue, s.query)
    else if s.route.screen == "analytics" then AnalyticsParams(m, s.view, s.analytics, Get(s.route.params, Agent))
    else ScreenParams(m, s.route.screen, Given(s.route.params))
  }

  // ---- Parameters to state ----------------------------------------------------------

  function OrEmpty(o: Option<string>): string {
    if o.None? then "" else o.value
  }

  function QueueFrom(queue: Option<string>, scope: Option<string>): InboxQueue {
    if queue == Some("mine") then Mine else if queue == Some("all") then All
    else if scope == Some("all") then All else Unassigned
  }

  function QueryFrom<F>(codec: Codec<F>, queue: Option<string>, scope: Option<string>, sort: Option<string>,
                        filters: Option<string>): Query<F> {
    Query(if queue == Some("all") || scope == Some("all") then Everyone else MineOnly,
          if sort.Some? && sort.value in SORTS then sort.value else DEFAULT_SORT,
          ReadFilters(codec, filters), None, None, DEFAULT_LIMIT)
  }

  function ViewFrom(view: Option<string>): string {
    var requested := if view == Some("operations") then Some("overview") else view;
    if requested.Some? && requested.value in VIEWS then requested.value else DEFAULT_VIEW
  }

  function AnalyticsFrom(given: Key -> Option<string>): Analytics {
    Analytics(OrEmpty(given(From)), OrEmpty(given(To)), OrEmpty(given(AgentFilter)), OrEmpty(given(Team)),
              OrEmpty(given(Channel)), OrEmpty(given(Connection)), OrEmpty(given(Label)), OrEmpty(given(Campaign)),
              OrEmpty(given(Priority)), OrEmpty(given(Status)))
  }

  function LanguageFrom(lang: Option<string>, kept: Language): Language {
    if lang == Some("en") then English else if lang == Some("ar") then Arabic else kept
  }

  function Applied<F>(codec: Codec<F>, s: State<F>, route: Route): State<F> {
    var g := Given(route.params);
    var t := s.(route := route, lang := LanguageFrom(g(Lang), s.lang));
    if route.screen == "inbox" then
      t.(inboxQueue := QueueFrom(g(Queue), g(Scope)),
          query := QueryFrom(codec, g(Queue), g(Scope), g(Sort), g(Filters)))
    else if route.screen == "analytics" then t.(view := ViewFrom(g(View)), analytics := AnalyticsFrom(g))
    else t
  }

  // ---- Fixed point ------------------------------------------------------------------

  /** What JSON is asked for: parsing what was written gives it back. */
  ghost predicate RoundTrips<F(!new)>(codec: Codec<F>) {
    forall fs: seq<F> :: codec.parse(codec.stringify(fs)) == Some(fs) && codec.stringify(fs) != ""
  }

  /** The filters the reader accepts: short enough, few enough, each admitted. */
  predicate Admitted<F>(codec: Codec<F>, fs: seq<F>) {
    fs == [] || (Units(codec.stringify(fs)) <= MAX_FILTER_TEXT && |fs| <= MAX_FILTERS
                 && forall i :: 0 <= i < |fs| ==> codec.admits(fs[i]))
  }

  lemma FiltersReadBack<F(!new)>(codec: Codec<F>, fs: seq<F>)
    requires RoundTrips(codec) && fs != []
    ensures ReadFilters(codec, Some(codec.stringify(fs))) == if Admitted(codec, fs) then fs else []
  { }

  /** What a projection says of one parameter. */
  function Of(m: Params, k: Key): Option<string> {
    if k in m then Some(m[k]) else None
  }

  lemma GivenNamed(m: Params, k: Key)
    ensures Given(Named(m))(k) == Of(m, k)
  {
    GetNamed(m, k);
  }

  lemma InboxEntries<F>(codec: Codec<F>, m: Params, q: InboxQueue, query: Query<F>)
    requires m.Keys <= {Lang}
    ensures var p := InboxParams(codec, m, q, query);
      && Of(p, Lang) == Of(m, Lang)
      && Of(p, Queue) == (if q.Unassigned? then None else Some(QueueName(q)))
      && Of(p, Scope) == (if query.queue.Everyone? && q.Mine? then Some("all") else None)
      && Of(p, Sort) == (if query.sort != DEFAULT_SORT then Some(query.sort) else None)
      && Of(p, Filters) == (if |query.filters| > 0 then Some(codec.stringify(query.filters)) else None)
  { }

  lemma {:induction false} PutAllOf(m: Params, keys: seq<Key>, values: seq<string>, k: Key)
    requires |keys| == |values|
    ensures k !in keys ==> Of(PutAll(m, keys, values), k) == Of(m, k)
  {
    if keys != [] {
      var n := |keys| - 1;
      PutAllOf(m, keys[..n], values[..n], k);
    }
  }

  lemma {:induction false} PutAllAt(m: Params, keys: seq<Key>, values: seq<string>, i: nat)
    requires |keys| == |values| && i < |keys|
    requires forall x, y :: 0 <= x < y < |keys| ==> keys[x] != keys[y]
    requires forall x :: 0 <= x < |keys| ==> keys[x] !in m
    ensures OrEmpty(Of(PutAll(m, keys, values), keys[i])) == values[i]
  {
    var n := |keys| - 1;
    if i < n {
      PutAllAt(m, keys[..n], values[..n], i);
    } else {
      PutAllOf(m, keys[..n], values[..n], keys[n]);
    }
  }

  lemma ReadsAnalytics(g: Key -> Option<string>, a: Analytics)
    requires forall i :: 0 <= i < 10 ==> OrEmpty(g(ANALYTICS_KEYS[i])) == AnalyticsValues(a)[i]
    ensures AnalyticsFrom(g) == a
  {
    var k, v := ANALYTICS_KEYS, AnalyticsValues(a);
    assert OrEmpty(g(k[0])) == v[0] && OrEmpty(g(k[1])) == v[1] && OrEmpty(g(k[2])) == v[2] && OrEmpty(g(k[3])) == v[3];
    assert OrEmpty(g(k[4])) == v[4] && OrEmpty(g(k[5])) == v[5] && OrEmpty(g(k[6])) == v[6] && OrEmpty(g(k[7])) == v[7];
    assert OrEmpty(g(k[8])) == v[8] && OrEmpty(g(k[9])) == v[9];
  }

  /** The ten filters are read back as they were written. */
  lemma AnalyticsReadBack(m: Params, a: Analytics, all: Params, g: Key -> Option<string>)
    requires m.Keys <= {Lang, View} && all == PutAll(m, ANALYTICS_KEYS, AnalyticsValues(a))
    requires forall i :: 0 <= i < 10 ==> g(ANALYTICS_KEYS[i]) == Of(all, ANALYTICS_KEYS[i])
    ensures AnalyticsFrom(g) == a
  {
    forall i | 0 <= i < 10 ensures OrEmpty(g(ANALYTICS_KEYS[i])) == AnalyticsValues(a)[i] {
      PutAllAt(m, ANALYTICS_KEYS, AnalyticsValues(a), i);
    }
    ReadsAnalytics(g, a);
  }

  lemma LanguageReadBack(lang: Language)
    ensures LanguageFrom(Of(PutIf(map[], lang.English?, Lang, "en"), Lang), lang) == lang
  { }

  lemma InboxReadBack<F(!new)>(codec: Codec<F>, m: Params, q: InboxQueue, query: Query<F>, p: Params,
                               g: Key -> Option<string>)
    requires RoundTrips(codec) && m.Keys <= {Lang} && p == InboxParams(codec, m, q, query) && query.sort in SORTS
    requires forall k :: g(k) == Of(p, k)
    ensures QueueFrom(g(Queue), g(Scope)) == q
    ensures q.Mine? ==> QueryFrom(codec, g(Queue), g(Scope), g(Sort), g(Filters)).queue == query.queue
    ensures QueryFrom(codec, g(Queue), g(Scope), g(Sort), g(Filters)).sort == query.sort
    ensures QueryFrom(codec, g(Queue), g(Scope), g(Sort), g(Filters)).filters ==
            if Admitted(codec, query.filters) then query.filters else []
  {
    InboxEntries(codec, m, q, query);
    if query.filters != [] {
      FiltersReadBack(codec, query.filters);
    }
  }

  lemma InboxSame<F>(codec: Codec<F>, m: Params, q: InboxQueue, a: Query<F>, b: Query<F>)
    requires m.Keys <= {Lang} && a.sort == b.sort && (q.Mine? ==> a.queue == b.queue)
    requires b.filters == if Admitted(codec, a.filters) then a.filters else []
    ensures InboxParams(codec, m, q, b) == InboxParams(codec, m, q, a) <==> Admitted(codec, a.filters)
  {
    var x, y := InboxParams(codec, m, q, a), InboxParams(codec, m, q, b);
    if !Admitted(codec, a.filters) {
      assert Filters in x && Filters !in y;
    }
  }

  /** The state after its own projection has been applied to it. */
  function Reapplied<F>(codec: Codec<F>, s: State<F>): State<F> {
    Applied(codec, s, s.route.(params := Named(Projected(codec, s))))
  }

  function LanguageParams(lang: Language): Params {
    PutIf(map[], lang.English?, Lang, "en")
  }

  lemma AllGiven(p: Params, g: Key -> Option<string>)
    requires g == Given(Named(p))
    ensures forall k :: g(k) == Of(p, k)
  {
    forall k ensures g(k) == Of(p, k) { GivenNamed(p, k); }
  }

  /** A projection to parameters, applied and projected again, in the inbox. */
  lemma InboxFixed<F(!new)>(codec: Codec<F>, lang: Language, q: InboxQueue, query: Query<F>)
    returns (p: Params, g: Key -> Option<string>, again: Params)
    requires RoundTrips(codec) && query.sort in SORTS
    ensures p == InboxParams(codec, LanguageParams(lang), q, query) && g == Given(Named(p))
      && LanguageFrom(g(Lang), lang) == lang
    ensures again == InboxParams(codec, LanguageParams(lang), QueueFrom(g(Queue), g(Scope)),
        QueryFrom(codec, g(Queue), g(Scope), g(Sort), g(Filters)))
    ensures again == p <==> Admitted(codec, query.filters)
  {
    var m := LanguageParams(lang);
    p := InboxParams(codec, m, q, query);
    g := Given(Named(p));
    AllGiven(p, g);
    InboxEntries(codec, m, q, query);
    LanguageReadBack(lang);
    InboxReadBack(codec, m, q, query, p, g);
    var query' := QueryFrom(codec, g(Queue), g(Scope), g(Sort), g(Filters));
    again := InboxParams(codec, m, QueueFrom(g(Queue), g(Scope)), query');
    InboxSame(codec, m, q, query, query');
  }

  lemma AnalyticsEntries(m: Params, view: string, a: Analytics, agent: Option<string>, p: Params, all: Params)
    requires m.Keys <= {Lang} && p == AnalyticsParams(m, view, a, agent)
    requires all == PutAll(PutIf(m, view != DEFAULT_VIEW, View, view), ANALYTICS_KEYS, AnalyticsValues(a))
    ensures Of(p, Lang) == Of(m, Lang) && Of(p, View) == (if view != DEFAULT_VIEW then Some(view) else None)
    ensures Of(p, Agent) == (if agent.Some? && IsUuid(agent.value) then agent else None)
    ensures forall i :: 0 <= i < 10 ==> Of(p, ANALYTICS_KEYS[i]) == Of(all, ANALYTICS_KEYS[i])
  {
    var m1 := PutIf(m, view != DEFAULT_VIEW, View, view);
    PutAllOf(m1, ANALYTICS_KEYS, AnalyticsValues(a), Lang);
    PutAllOf(m1, ANALYTICS_KEYS, AnalyticsValues(a), View);
    PutAllOf(m1, ANALYTICS_KEYS, AnalyticsValues(a), Agent);
  }

  lemma ViewReadBack(view: string)
    requires view in VIEWS
    ensures ViewFrom(if view != DEFAULT_VIEW then Some(view) else None) == view
  { }

  lemma AnalyticsReads(m: Params, view: string, a: Analytics, agent: Option<string>, p: Params,
                       g: Key -> Option<string>)
    requires view in VIEWS && m.Keys <= {Lang} && p == AnalyticsParams(m, view, a, agent)
      && forall k :: g(k) == Of(p, k)
    ensures g(Lang) == Of(m, Lang) && ViewFrom(g(View)) == view && AnalyticsFrom(g) == a
    ensures g(Agent) == if agent.Some? && IsUuid(agent.value) then agent else None
  {
    var all := PutAll(PutIf(m, view != DEFAULT_VIEW, View, view), ANALYTICS_KEYS, AnalyticsValues(a));
    AnalyticsEntries(m, view, a, agent, p, all);
    ViewReadBack(view);
    AnalyticsReadBack(PutIf(m, view != DEFAULT_VIEW, View, view), a, all, g);
  }

  lemma AgentKept(m: Params, view: string, a: Analytics, agent: Option<string>, kept: Option<string>)
    requires kept == if agent.Some? && IsUuid(agent.value) then agent else None
    ensures AnalyticsParams(m, view, a, kept) == AnalyticsParams(m, view, a, agent)
  { }

  /** The same on the analytics screen, where nothing can be lost. */
  lemma AnalyticsFixed(lang: Language, view: string, a: Analytics, agent: Option<string>)
    returns (p: Params, g: Key -> Option<string>)
    requires view in VIEWS
    ensures p == AnalyticsParams(LanguageParams(lang), view, a, agent) && g == Given(Named(p))
      && LanguageFrom(g(Lang), lang) == lang
    ensures ViewFrom(g(View)) == view && AnalyticsFrom(g) == a
    ensures AnalyticsParams(LanguageParams(lang), view, a, g(Agent)) == p
  {
    p := AnalyticsParams(LanguageParams(lang), view, a, agent);
    g := Given(Named(p));
    AllGiven(p, g);
    LanguageReadBack(lang);
    AnalyticsReads(LanguageParams(lang), view, a, agent, p, g);
    AgentKept(LanguageParams(lang), view, a, agent, g(Agent));
  }

  lemma ScreenReads(m: Params, screen: string, given: Key -> Option<string>, p: Params, g: Key -> Option<string>)
    requires m.Keys <= {Lang} && p == ScreenParams(m, screen, given) && forall k :: g(k) == Of(p, k)
    ensures g(Lang) == Of(m, Lang) && ScreenParams(m, screen, g) == p
  { }

  /** The same on every other screen. */
  lemma ScreenFixed(lang: Language, screen: string, given: Key -> Option<string>)
    returns (p: Params, g: Key -> Option<string>)
    ensures p == ScreenParams(LanguageParams(lang), screen, given) && g == Given(Named(p))
      && LanguageFrom(g(Lang), lang) == lang
    ensures ScreenParams(LanguageParams(lang), screen, g) == p
  {
    p := ScreenParams(LanguageParams(lang), screen, given);
    g := Given(Named(p));
    AllGiven(p, g);
    LanguageReadBack(lang);
    ScreenReads(LanguageParams(lang), screen, given, p, g);
  }

  /**
   * Projecting the state, applying the projection and projecting again changes nothing,
   * exactly when the screen is not the inbox or its filters are ones the reader accepts.
   */
  lemma ProjectionFixed<F(!new)>(codec: Codec<F>, s: State<F>)
    requires RoundTrips(codec) && Typed(s)
    ensures Projected(codec, Reapplied(codec, s)) == Projected(codec, s) <==>
      (s.route.screen == "inbox" ==> Admitted(codec, s.query.filters))
  {
    if s.route.screen == "inbox" {
      var p, g, again := InboxFixed(codec, s.lang, s.inboxQueue, s.query);
    } else if s.route.screen == "analytics" {
      var p, g := AnalyticsFixed(s.lang, s.view, s.analytics, Get(s.route.params, Agent));
    } else {
      var p, g := ScreenFixed(s.lang, s.route.screen, Given(s.route.params));
    }
  }
}
