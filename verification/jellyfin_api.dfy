/**
 * The Jellyfin REST client `JellyfinAPI`: configuration normalisation,
 * cached authentication, library enumeration, movie and episode searches and
 * stream URLs.
 *
 * The network is an abstract `Server`: a map from each request the server
 * answers to the JSON body of its reply; a request outside the map raises in
 * the transport (connection refused, HTTP error, undecodable body). The client
 * object keeps a ghost `log` of every request it sends.
 *
 * Each state-changing method is specified by a pure `...Outcome` function of
 * the session it starts from: what it returns, the session it leaves and the
 * requests it sends. The properties of those functions are proved in
 * module JellyfinApiFacts.
 */
module JellyfinApi {
  import opened PyValues
  import opened PyStrings
  import opened Catalog

  /** The `X-Emby-Authorization` header sent with every request. */
  const ClientHeader: string :=
    "MediaBrowser Client=\"Fenlight\", Device=\"Kodi\", DeviceId=\"fenlight-jellyfin\", Version=\"1.0.0\""

  /** The `Limit` of every items search. */
  const SearchLimit: nat := 50

  const MovieType: string := "Movie"
  const SeriesType: string := "Series"

  /** Library-id settings that mean "no library filter", compared after lower-casing. */
  const LibrarySentinels: set<string> := {"", "none", "null", "0", "empty_setting"}

  // ---------------------------------------------------------------------------
  // Configuration

  /** What the host's setting readers return (`None` when a reader returns nothing). */
  datatype Settings = Settings(
    url: Option<string>,
    username: Option<string>,
    password: Option<string>,
    libraryId: Option<string>)

  /** `setting or ''` */
  function OrEmpty(setting: Option<string>): string {
    setting.GetOr("")
  }

  /** `(jellyfin_url() or '').rstrip('/')`: the configured URL without its trailing slashes. */
  function NormalizeBaseUrl(url: Option<string>): (base: string)
    ensures base == [] || base[|base| - 1] != '/'
    ensures |base| <= |OrEmpty(url)| && base == OrEmpty(url)[..|base|]
    ensures forall k :: |base| <= k < |OrEmpty(url)| ==> OrEmpty(url)[k] == '/'
  {
    RStrip(OrEmpty(url), {'/'})
  }

  predicate IsSentinel(lib: string) {
    Lower(lib) in LibrarySentinels
  }

  /**
   * The library id kept from the setting: the stripped setting, or `''` when
   * that is one of the sentinels, whatever its case.
   */
  function NormalizeLibraryId(raw: Option<string>): (id: string)
    ensures id == "" <==> IsSentinel(Strip(OrEmpty(raw)))
    ensures id != "" ==> id == Strip(OrEmpty(raw)) && !IsSentinel(id)
  {
    var lib := Strip(OrEmpty(raw));
    assert Lower("") == "";
    if IsSentinel(lib) then "" else lib
  }

  // ---------------------------------------------------------------------------
  // Requests and replies

  datatype HttpMethod = Get | Post

  /** The query string of a `/Users/{user}/Items` search (urlencoded by the client). */
  datatype ItemsQuery = ItemsQuery(
    includeItemTypes: string,
    searchTerm: Scalar,
    recursive: bool,
    limit: nat,
    parentId: Scalar,
    mediaSourcesField: bool)

  datatype Endpoint =
      /** `POST /Users/AuthenticateByName` with body `{"Username": .., "Pw": ..}` */
    | AuthenticateByName(username: Option<string>, pw: Option<string>)
      /** `GET /Users/{userId}/Views` */
    | Views(userId: Scalar)
      /** `GET /Users/{userId}/Items?{query}` */
    | Items(userId: Scalar, query: ItemsQuery)
      /** `GET /Shows/{showId}/Episodes?UserId={userId}&Season={season}&Fields=MediaSources` */
    | Episodes(showId: Scalar, userId: Scalar, season: Scalar)

  /** A request as sent: method, target, client header and `X-Emby-Token` header (if any). */
  datatype HttpRequest = HttpRequest(
    verb: HttpMethod,
    endpoint: Endpoint,
    authorization: string,
    token: Option<Scalar>)

  /**
   * The reply to an authentication: without `AccessToken`, with a token but
   * without `User.Id`, or with both.
   */
  datatype AuthReply = NoToken | NoUser(accessToken: Scalar) | Granted(accessToken: Scalar, userId: Scalar)

  /** A decoded reply body; an empty body or one without `Items` is `Listing([])`. */
  datatype Body = Login(auth: AuthReply) | Listing(items: seq<Item>)

  type Server = map<HttpRequest, Body>

  /** `data.get('Items', [])` */
  function ItemsOf(body: Body): seq<Item> {
    if body.Listing? then body.items else []
  }

  /** `result['AccessToken']`, `result['User']['Id']` read from a reply body. */
  function AuthOf(body: Body): AuthReply {
    if body.Login? then body.auth else NoToken
  }

  /** The fields of a `JellyfinAPI` object. */
  datatype Session = Session(
    baseUrl: string,
    username: Option<string>,
    password: Option<string>,
    libraryId: string,
    token: Scalar,
    userId: Scalar)

  /** The session `JellyfinAPI()` builds from the settings. */
  function InitialSession(settings: Settings): Session {
    Session(NormalizeBaseUrl(settings.url), settings.username, settings.password,
            NormalizeLibraryId(settings.libraryId), Null, Null)
  }

  /** A reply (`None` when the request raised) and the requests actually sent. */
  datatype Exchange = Exchange(reply: Option<Body>, sent: seq<HttpRequest>)

  /** The `X-Emby-Token` header: present only when asked for and a token is held. */
  function TokenHeader(s: Session, addToken: bool): Option<Scalar> {
    if addToken && Truthy(s.token) then Some(s.token) else None
  }

  /**
   * `_request`: raises before sending anything when no base URL is configured;
   * otherwise sends exactly one request, carrying the client header and, when
   * asked for and held, the token; it raises unless the server answers it.
   */
  function RequestOutcome(s: Session, srv: Server, m: HttpMethod, e: Endpoint, addToken: bool): Exchange
  {
    if s.baseUrl == "" then Exchange(None, [])
    else
      var req := HttpRequest(m, e, ClientHeader, TokenHeader(s, addToken));
      Exchange(if req in srv then Some(srv[req]) else None, [req])
  }

  // ---------------------------------------------------------------------------
  // Specification of the client's operations

  /** A value, the session left behind and the requests sent, in order. */
  datatype Outcome<T> = Outcome(value: T, session: Session, sent: seq<HttpRequest>)

  /** A result and the requests sent, for steps that do not change the session. */
  datatype Stage<T> = Stage(result: Result<T>, sent: seq<HttpRequest>)

  /** `if self.token and self.user_id` */
  predicate HoldsCredentials(s: Session) {
    Truthy(s.token) && Truthy(s.userId)
  }

  /** A username or password setting that is neither `None` nor empty. */
  predicate Present(setting: Option<string>) {
    setting.Some? && setting.value != ""
  }

  /** `authenticate()`: every failure is turned into `false`. */
  function AuthenticateOutcome(s: Session, srv: Server): Outcome<bool> {
    if HoldsCredentials(s) then Outcome(true, s, [])
    else if !Present(s.username) || !Present(s.password) then Outcome(false, s, [])
    else
      var x := RequestOutcome(s, srv, Post, AuthenticateByName(s.username, s.password), false);
      if x.reply.None? then Outcome(false, s, x.sent)
      else
        match AuthOf(x.reply.value)
        case NoToken => Outcome(false, s, x.sent)
        case NoUser(t) => Outcome(false, s.(token := t), x.sent)
        case Granted(t, u) => Outcome(true, s.(token := t, userId := u), x.sent)
  }

  /** `_libraries()`: every failure is turned into `[]`. */
  function LibrariesOutcome(s: Session, srv: Server): Outcome<seq<Item>> {
    var a := AuthenticateOutcome(s, srv);
    if !a.value then Outcome([], a.session, a.sent)
    else
      var x := RequestOutcome(a.session, srv, Get, Views(a.session.userId), true);
      Outcome(if x.reply.Some? then ItemsOf(x.reply.value) else [], a.session, a.sent + x.sent)
  }

  function SearchQuery(kind: string, term: Scalar, parent: Scalar, mediaSources: bool): ItemsQuery {
    ItemsQuery(kind, term, true, SearchLimit, parent, mediaSources)
  }

  /** The search request for one library. */
  function SearchEndpoint(s: Session, kind: string, term: Scalar, parent: Scalar, mediaSources: bool): Endpoint {
    Items(s.userId, SearchQuery(kind, term, parent, mediaSources))
  }

  /** One search in the configured library, which always asks for `MediaSources`. */
  function SearchInLibrary(s: Session, srv: Server, kind: string, term: Scalar): Stage<seq<Item>> {
    var x := RequestOutcome(s, srv, Get, SearchEndpoint(s, kind, term, Text(s.libraryId), true), true);
    Stage(if x.reply.None? then Raised else Ok(ItemsOf(x.reply.value)), x.sent)
  }

  /** Runs `first`, then `second` unless `first` raised, concatenating items and requests. */
  function Then(first: Stage<seq<Item>>, second: Stage<seq<Item>>): Stage<seq<Item>> {
    if first.result.Raised? then first
    else if second.result.Raised? then Stage(Raised, first.sent + second.sent)
    else Stage(Ok(first.result.value + second.result.value), first.sent + second.sent)
  }

  /** The search in one library of the loop: a library without `Id` raises a `KeyError`. */
  function LibrarySearch(s: Session, srv: Server, lib: Item, kind: string, term: Scalar,
                         mediaSources: bool): Stage<seq<Item>>
  {
    if lib.id.None? then Stage(Raised, [])
    else
      var x := RequestOutcome(s, srv, Get, SearchEndpoint(s, kind, term, lib.id.value, mediaSources), true);
      Stage(if x.reply.None? then Raised else Ok(ItemsOf(x.reply.value)), x.sent)
  }

  /**
   * The loop over the libraries: one search per library, in order, the
   * results concatenated; a library without `Id` or a failed request raises
   * and ends the loop.
   */
  function SearchInLibraries(s: Session, srv: Server, libs: seq<Item>, kind: string, term: Scalar,
                             mediaSources: bool): Stage<seq<Item>>
    decreases |libs|
  {
    if libs == [] then Stage(Ok([]), [])
    else Then(SearchInLibraries(s, srv, libs[..|libs| - 1], kind, term, mediaSources),
              LibrarySearch(s, srv, libs[|libs| - 1], kind, term, mediaSources))
  }

  /**
   * The candidates of a search: from the configured library when there is
   * one, otherwise from every library `_libraries()` returns.
   */
  function CandidatesOutcome(s: Session, srv: Server, kind: string, term: Scalar,
                             mediaSourcesEverywhere: bool): Outcome<Result<seq<Item>>>
  {
    if s.libraryId != "" then
      var st := SearchInLibrary(s, srv, kind, term);
      Outcome(st.result, s, st.sent)
    else
      var libs := LibrariesOutcome(s, srv);
      var st := SearchInLibraries(libs.session, srv, libs.value, kind, term, mediaSourcesEverywhere);
      Outcome(st.result, libs.session, libs.sent + st.sent)
  }

  /** `if year: items = [i for i in items if str(i.get('ProductionYear')) == str(year)]` */
  function FilterByYear(items: seq<Item>, year: Scalar): (kept: seq<Item>)
    ensures |kept| <= |items|
    ensures !Truthy(year) ==> kept == items
  {
    if Truthy(year) then KeepMatching(items, ProductionYear, year) else items
  }


  /** `search_movie(title, year)` */
  function SearchMovieOutcome(s: Session, srv: Server, title: Scalar, year: Scalar): Outcome<Result<seq<Item>>> {
    var a := AuthenticateOutcome(s, srv);
    if !a.value then Outcome(Ok([]), a.session, a.sent)
    else
      var c := CandidatesOutcome(a.session, srv, MovieType, title, false);
      var r := if c.value.Raised? then Raised else Ok(FilterByYear(c.value.value, year));
      Outcome(r, c.session, a.sent + c.sent)
  }

  /** The season of one series: a series without `Id` raises a `KeyError`. */
  function SeasonOf(s: Session, srv: Server, show: Item, season: Scalar): Stage<seq<Item>> {
    if show.id.None? then Stage(Raised, [])
    else
      var x := RequestOutcome(s, srv, Get, Episodes(show.id.value, s.userId, season), true);
      Stage(if x.reply.None? then Raised else Ok(ItemsOf(x.reply.value)), x.sent)
  }

  /** The episodes of one series that the loop keeps: those numbered `episode` in that season. */
  function ShowEpisodes(s: Session, srv: Server, show: Item, season: Scalar, episode: Scalar): Stage<seq<Item>> {
    var f := SeasonOf(s, srv, show, season);
    Stage(if f.result.Raised? then Raised else Ok(KeepMatching(f.result.value, IndexNumber, episode)), f.sent)
  }

  /**
   * The loop over the series found: for each, in order, that season's
   * episodes whose `IndexNumber` reads as the requested episode; a series
   * without `Id` or a failed request raises and ends the loop.
   */
  function SeasonEpisodes(s: Session, srv: Server, shows: seq<Item>, season: Scalar, episode: Scalar): Stage<seq<Item>>
    decreases |shows|
  {
    if shows == [] then Stage(Ok([]), [])
    else Then(SeasonEpisodes(s, srv, shows[..|shows| - 1], season, episode),
              ShowEpisodes(s, srv, shows[|shows| - 1], season, episode))
  }

  /** The requests `sent` before it, followed by those of `o`. */
  function After<T>(sent: seq<HttpRequest>, o: Outcome<T>): Outcome<T> {
    Outcome(o.value, o.session, sent + o.sent)
  }

  /** What `search_episode` does once authenticated: find the series, then their episodes. */
  function EpisodesOfShows(s: Session, srv: Server, showTitle: Scalar, season: Scalar,
                           episode: Scalar): Outcome<Result<seq<Item>>>
  {
    var c := CandidatesOutcome(s, srv, SeriesType, showTitle, true);
    if c.value.Raised? || c.value.value == [] then c
    else
      var eps := SeasonEpisodes(c.session, srv, c.value.value, season, episode);
      Outcome(eps.result, c.session, c.sent + eps.sent)
  }

  /** `search_episode(show_title, season, episode)` */
  function SearchEpisodeOutcome(s: Session, srv: Server, showTitle: Scalar, season: Scalar,
                                episode: Scalar): Outcome<Result<seq<Item>>>
  {
    var a := AuthenticateOutcome(s, srv);
    if !a.value then Outcome(Ok([]), a.session, a.sent)
    else After(a.sent, EpisodesOfShows(a.session, srv, showTitle, season, episode))
  }

  /** `stream_url(item_id)` */
  function StreamUrl(s: Session, itemId: Scalar): (url: string)
    ensures s.baseUrl == "" <==> url == ""
    ensures s.baseUrl != "" ==>
      var prefix := s.baseUrl + "/Videos/" + Str(itemId) + "/stream?static=true";
      |prefix| <= |url| && url[..|prefix|] == prefix
  {
    if s.baseUrl == "" then ""
    else if Truthy(s.token) then
      s.baseUrl + "/Videos/" + Str(itemId) + "/stream?static=true&api_key=" + Str(s.token)
    else
      s.baseUrl + "/Videos/" + Str(itemId) + "/stream?static=true"
  }

  // ---------------------------------------------------------------------------
  // Loops that end at the first exception

  /**
   * One more turn of the loop over the libraries: a library whose search
   * fails ends the loop with an exception, any other adds its items.
   */
  lemma SearchInLibrariesStep(s: Session, srv: Server, libs: seq<Item>, i: nat, kind: string, term: Scalar,
                              mediaSources: bool, items: seq<Item>, sent: seq<HttpRequest>)
    requires i < |libs|
    requires SearchInLibraries(s, srv, libs[..i], kind, term, mediaSources) == Stage(Ok(items), sent)
    ensures var st := LibrarySearch(s, srv, libs[i], kind, term, mediaSources);
      if st.result.Raised? then
        SearchInLibraries(s, srv, libs, kind, term, mediaSources) == Stage(Raised, sent + st.sent)
      else SearchInLibraries(s, srv, libs[..i + 1], kind, term, mediaSources)
           == Stage(Ok(items + st.result.value), sent + st.sent)
  {
    assert libs[..i + 1][..i] == libs[..i];
    var st := LibrarySearch(s, srv, libs[i], kind, term, mediaSources);
    var next := SearchInLibraries(s, srv, libs[..i + 1], kind, term, mediaSources);
    if st.result.Raised? {
      assert next == Stage(Raised, sent + st.sent);
      SearchInLibrariesRaisedIsFinal(s, srv, libs, i + 1, kind, term, mediaSources);
    }
  }

  lemma {:induction false} SearchInLibrariesRaisedIsFinal(s: Session, srv: Server, libs: seq<Item>, n: nat,
                                                          kind: string, term: Scalar, mediaSources: bool)
    requires n <= |libs|
    requires SearchInLibraries(s, srv, libs[..n], kind, term, mediaSources).result.Raised?
    ensures SearchInLibraries(s, srv, libs, kind, term, mediaSources)
         == SearchInLibraries(s, srv, libs[..n], kind, term, mediaSources)
    decreases |libs| - n
  {
    if n == |libs| {
      assert libs[..n] == libs;
    } else {
      assert libs[..n + 1][..n] == libs[..n];
      SearchInLibrariesRaisedIsFinal(s, srv, libs, n + 1, kind, term, mediaSources);
    }
  }

  /**
   * One more turn of the episode loop: a series whose season cannot be
   * fetched ends the loop with an exception, any other adds its matching
   * episodes.
   */
  lemma SeasonEpisodesStep(s: Session, srv: Server, shows: seq<Item>, i: nat, season: Scalar, episode: Scalar,
                           matching: seq<Item>, sent: seq<HttpRequest>)
    requires i < |shows|
    requires SeasonEpisodes(s, srv, shows[..i], season, episode) == Stage(Ok(matching), sent)
    ensures var f := SeasonOf(s, srv, shows[i], season);
      if f.result.Raised? then SeasonEpisodes(s, srv, shows, season, episode) == Stage(Raised, sent + f.sent)
      else SeasonEpisodes(s, srv, shows[..i + 1], season, episode)
           == Stage(Ok(matching + KeepMatching(f.result.value, IndexNumber, episode)), sent + f.sent)
  {
    assert shows[..i + 1][..i] == shows[..i];
    var f := SeasonOf(s, srv, shows[i], season);
    var next := SeasonEpisodes(s, srv, shows[..i + 1], season, episode);
    if f.result.Raised? {
      assert next == Stage(Raised, sent + f.sent);
      SeasonEpisodesRaisedIsFinal(s, srv, shows, i + 1, season, episode);
    }
  }

  lemma {:induction false} SeasonEpisodesRaisedIsFinal(s: Session, srv: Server, shows: seq<Item>, n: nat,
                                                       season: Scalar, episode: Scalar)
    requires n <= |shows|
    requires SeasonEpisodes(s, srv, shows[..n], season, episode).result.Raised?
    ensures SeasonEpisodes(s, srv, shows, season, episode) == SeasonEpisodes(s, srv, shows[..n], season, episode)
    decreases |shows| - n
  {
    if n == |shows| {
      assert shows[..n] == shows;
    } else {
      assert shows[..n + 1][..n] == shows[..n];
      SeasonEpisodesRaisedIsFinal(s, srv, shows, n + 1, season, episode);
    }
  }

  /** Requests logged in two steps are the requests of both steps, in order. */
  lemma LogAppend(log: seq<HttpRequest>, first: seq<HttpRequest>, second: seq<HttpRequest>)
    ensures log + first + second == log + (first + second)
  {
  }

  // ---------------------------------------------------------------------------
  // The client object

  class JellyfinAPI {
    const baseUrl: string
    const username: Option<string>
    const password: Option<string>
    const libraryId: string
    /** The server this client talks to. */
    const server: Server
    var token: Scalar
    var userId: Scalar
    /** Every request sent so far, in order. */
    ghost var log: seq<HttpRequest>

    function Snapshot(): Session
      reads this`token, this`userId
    {
      Session(baseUrl, username, password, libraryId, token, userId)
    }

    /** `JellyfinAPI()`, with the settings readers' values passed in. */
    constructor (settings: Settings, server: Server)
      ensures Snapshot() == InitialSession(settings)
      ensures this.server == server && log == []
    {
      baseUrl := NormalizeBaseUrl(settings.url);
      username := settings.username;
      password := settings.password;
      libraryId := NormalizeLibraryId(settings.libraryId);
      this.server := server;
      token := Null;
      userId := Null;
      log := [];
    }

    /** `_request(path, method, data, add_token)`; `None` is an exception. */
    method Request(m: HttpMethod, e: Endpoint, addToken: bool) returns (reply: Option<Body>)
      modifies this`log
      ensures var x := RequestOutcome(Snapshot(), server, m, e, addToken);
        reply == x.reply && log == old(log) + x.sent
    {
      if baseUrl == "" {
        return None;
      }
      var tokenHeader := if addToken && Truthy(token) then Some(token) else None;
      var req := HttpRequest(m, e, ClientHeader, tokenHeader);
      log := log + [req];
      reply := if req in server then Some(server[req]) else None;
    }

    method Authenticate() returns (ok: bool)
      modifies this`token, this`userId, this`log
      ensures var o := AuthenticateOutcome(old(Snapshot()), server);
        ok == o.value && Snapshot() == o.session && log == old(log) + o.sent
    {
      if Truthy(token) && Truthy(userId) {
        return true;
      }
      if !Present(username) || !Present(password) {
        return false;
      }
      var reply := Request(Post, AuthenticateByName(username, password), false);
      if reply.None? {
        return false;
      }
      match AuthOf(reply.value)
      case NoToken =>
        ok := false;
      case NoUser(t) =>
        token := t;
        ok := false;
      case Granted(t, u) =>
        token := t;
        userId := u;
        ok := true;
    }

    /** `_libraries()` */
    method Libraries() returns (libs: seq<Item>)
      modifies this`token, this`userId, this`log
      ensures var o := LibrariesOutcome(old(Snapshot()), server);
        libs == o.value && Snapshot() == o.session && log == old(log) + o.sent
    {
      ghost var a := AuthenticateOutcome(Snapshot(), server);
      var ok := Authenticate();
      if !ok {
        return [];
      }
      ghost var x := RequestOutcome(Snapshot(), server, Get, Views(userId), true);
      var reply := Request(Get, Views(userId), true);
      libs := if reply.Some? then ItemsOf(reply.value) else [];
      LogAppend(old(log), a.sent, x.sent);
    }

    /** One turn of the loop over the libraries: `lib['Id']`, then the search. */
    method SearchOneLibrary(lib: Item, kind: string, term: Scalar, mediaSources: bool) returns (r: Result<seq<Item>>)
      modifies this`log
      ensures var st := LibrarySearch(Snapshot(), server, lib, kind, term, mediaSources);
        r == st.result && log == old(log) + st.sent
    {
      if lib.id.None? {
        return Raised;
      }
      var reply := Request(Get, Items(userId, SearchQuery(kind, term, lib.id.value, mediaSources)), true);
      r := if reply.None? then Raised else Ok(ItemsOf(reply.value));
    }

    /** The `for lib in libraries` loop shared by both searches. */
    method SearchLibraries(libs: seq<Item>, kind: string, term: Scalar, mediaSources: bool)
      returns (r: Result<seq<Item>>)
      modifies this`log
      ensures var st := SearchInLibraries(Snapshot(), server, libs, kind, term, mediaSources);
        r == st.result && log == old(log) + st.sent
    {
      ghost var s := Snapshot();
      var items: seq<Item> := [];
      ghost var sent: seq<HttpRequest> := [];
      for i := 0 to |libs|
        invariant SearchInLibraries(s, server, libs[..i], kind, term, mediaSources) == Stage(Ok(items), sent)
        invariant log == old(log) + sent
        invariant Snapshot() == s
      {
        SearchInLibrariesStep(s, server, libs, i, kind, term, mediaSources, items, sent);
        ghost var st := LibrarySearch(s, server, libs[i], kind, term, mediaSources);
        var found := SearchOneLibrary(libs[i], kind, term, mediaSources);
        LogAppend(old(log), sent, st.sent);
        sent := sent + st.sent;
        if found.Raised? {
          return Raised;
        }
        items := items + found.value;
      }
      assert libs[..|libs|] == libs;
      return Ok(items);
    }

    /** The library-id branch both searches open with. */
    method FindCandidates(kind: string, term: Scalar, mediaSourcesEverywhere: bool) returns (r: Result<seq<Item>>)
      modifies this`token, this`userId, this`log
      ensures var o := CandidatesOutcome(old(Snapshot()), server, kind, term, mediaSourcesEverywhere);
        r == o.value && Snapshot() == o.session && log == old(log) + o.sent
    {
      if libraryId != "" {
        var reply := Request(Get, Items(userId, SearchQuery(kind, term, Text(libraryId), true)), true);
        r := if reply.None? then Raised else Ok(ItemsOf(reply.value));
      } else {
        ghost var l := LibrariesOutcome(Snapshot(), server);
        var libs := Libraries();
        ghost var st := SearchInLibraries(l.session, server, libs, kind, term, mediaSourcesEverywhere);
        r := SearchLibraries(libs, kind, term, mediaSourcesEverywhere);
        LogAppend(old(log), l.sent, st.sent);
      }
    }

    /** `search_movie(title, year)`; `Raised` is an exception it lets through. */
    method SearchMovie(title: Scalar, year: Scalar) returns (r: Result<seq<Item>>)
      modifies this`token, this`userId, this`log
      ensures var o := SearchMovieOutcome(old(Snapshot()), server, title, year);
        r == o.value && Snapshot() == o.session && log == old(log) + o.sent
    {
      ghost var a := AuthenticateOutcome(Snapshot(), server);
      var ok := Authenticate();
      if !ok {
        return Ok([]);
      }
      ghost var c := CandidatesOutcome(a.session, server, MovieType, title, false);
      var found := FindCandidates(MovieType, title, false);
      LogAppend(old(log), a.sent, c.sent);
      if found.Raised? {
        return Raised;
      }
      var items := found.value;
      if Truthy(year) {
        items := KeepMatching(items, ProductionYear, year);
      }
      return Ok(items);
    }

    /** The request for one series' season: `show['Id']`, then the episodes. */
    method FetchSeason(show: Item, season: Scalar) returns (r: Result<seq<Item>>)
      modifies this`log
      ensures var st := SeasonOf(Snapshot(), server, show, season);
        r == st.result && log == old(log) + st.sent
    {
      if show.id.None? {
        return Raised;
      }
      var reply := Request(Get, Episodes(show.id.value, userId, season), true);
      r := if reply.None? then Raised else Ok(ItemsOf(reply.value));
    }

    /** The `for show in shows` loop of `search_episode`. */
    method CollectEpisodes(shows: seq<Item>, season: Scalar, episode: Scalar) returns (r: Result<seq<Item>>)
      modifies this`log
      ensures var st := SeasonEpisodes(Snapshot(), server, shows, season, episode);
        r == st.result && log == old(log) + st.sent
    {
      ghost var s := Snapshot();
      var matching: seq<Item> := [];
      ghost var sent: seq<HttpRequest> := [];
      for i := 0 to |shows|
        invariant SeasonEpisodes(s, server, shows[..i], season, episode) == Stage(Ok(matching), sent)
        invariant log == old(log) + sent
        invariant Snapshot() == s
      {
        SeasonEpisodesStep(s, server, shows, i, season, episode, matching, sent);
        ghost var st := SeasonOf(s, server, shows[i], season);
        var episodes := FetchSeason(shows[i], season);
        LogAppend(old(log), sent, st.sent);
        sent := sent + st.sent;
        if episodes.Raised? {
          return Raised;
        }
        if episodes.value == [] {
          assert matching + KeepMatching(episodes.value, IndexNumber, episode) == matching;
          continue;
        }
        matching := matching + KeepMatching(episodes.value, IndexNumber, episode);
      }
      assert shows[..|shows|] == shows;
      return Ok(matching);
    }

    /** The series search and the episode loop of `search_episode`. */
    method FindEpisodes(showTitle: Scalar, season: Scalar, episode: Scalar) returns (r: Result<seq<Item>>)
      modifies this`token, this`userId, this`log
      ensures var o := EpisodesOfShows(old(Snapshot()), server, showTitle, season, episode);
        r == o.value && Snapshot() == o.session && log == old(log) + o.sent
    {
      ghost var c := CandidatesOutcome(Snapshot(), server, SeriesType, showTitle, true);
      var shows := FindCandidates(SeriesType, showTitle, true);
      if shows.Raised? || shows.value == [] {
        // an exception propagates; no series means `[]`
        r := shows;
      } else {
        ghost var eps := SeasonEpisodes(c.session, server, shows.value, season, episode);
        r := CollectEpisodes(shows.value, season, episode);
        LogAppend(old(log), c.sent, eps.sent);
      }
    }

    /** `search_episode(show_title, season, episode)`; `Raised` is an exception it lets through. */
    method SearchEpisode(showTitle: Scalar, season: Scalar, episode: Scalar) returns (r: Result<seq<Item>>)
      modifies this`token, this`userId, this`log
      ensures var o := SearchEpisodeOutcome(old(Snapshot()), server, showTitle, season, episode);
        r == o.value && Snapshot() == o.session && log == old(log) + o.sent
    {
      ghost var s := Snapshot();
      ghost var a := AuthenticateOutcome(s, server);
      var ok := Authenticate();
      if !ok {
        return Ok([]);
      }
      ghost var o := EpisodesOfShows(a.session, server, showTitle, season, episode);
      r := FindEpisodes(showTitle, season, episode);
      LogAppend(old(log), a.sent, o.sent);
    }
  }
}
