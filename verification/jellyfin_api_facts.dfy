/**
 * Properties of the Jellyfin client, proved about the outcome functions that
 * specify the methods of `JellyfinAPI`.
 */
module JellyfinApiFacts {
  import opened PyValues
  import opened PyStrings
  import opened Catalog
  import opened JellyfinApi

  // ---------------------------------------------------------------------------
  // Configuration

  /** A freshly built client holds no credentials and a normalised configuration. */
  lemma InitialSessionIsNormalized(settings: Settings)
    ensures var s := InitialSession(settings);
      && s.token == Null && s.userId == Null && !HoldsCredentials(s)
      && (s.baseUrl == "" || s.baseUrl[|s.baseUrl| - 1] != '/')
      && (s.libraryId == "" || (s.libraryId == Strip(OrEmpty(settings.libraryId)) && !IsSentinel(s.libraryId)))
  {
  }

  /** Normalising an already normalised library id changes nothing. */
  lemma NormalizeLibraryIdIdempotent(raw: Option<string>)
    ensures NormalizeLibraryId(Some(NormalizeLibraryId(raw))) == NormalizeLibraryId(raw)
  {
    var id := NormalizeLibraryId(raw);
    if id == "" {
      assert Strip("") == "";
      assert Lower("") == "";
    } else {
      StripIdempotent(OrEmpty(raw));
    }
  }

  /** A sentinel is recognised whatever its case. */
  lemma UpperCaseSentinelIsCleared()
    ensures NormalizeLibraryId(Some("NULL")) == ""
  {
    assert 'N' !in Whitespace && 'L' !in Whitespace;
    assert Strip("NULL") == "NULL";
    assert Lower("NULL") == "null";
  }

  // ---------------------------------------------------------------------------
  // Requests

  /**
   * `_request` raises before sending anything when no base URL is configured;
   * otherwise it sends exactly one request, carrying the client header and,
   * when asked for and held, the token, and it raises unless the server
   * answers that request.
   */
  lemma RequestSendsOneRequest(s: Session, srv: Server, m: HttpMethod, e: Endpoint, addToken: bool)
    ensures var x := RequestOutcome(s, srv, m, e, addToken);
      && (s.baseUrl == "" ==> x == Exchange(None, []))
      && (s.baseUrl != "" ==>
           && |x.sent| == 1
           && x.sent[0].verb == m && x.sent[0].endpoint == e
           && x.sent[0].authorization == ClientHeader
           && (x.sent[0].token.Some? <==> addToken && Truthy(s.token))
           && (x.sent[0].token.Some? ==> x.sent[0].token.value == s.token)
           && (x.reply.Some? <==> x.sent[0] in srv)
           && (x.reply.Some? ==> x.reply.value == srv[x.sent[0]]))
  {
  }

  // ---------------------------------------------------------------------------
  // Authentication

  /** With token and user id held, `authenticate` succeeds without a request. */
  lemma AuthenticateCached(s: Session, srv: Server)
    requires HoldsCredentials(s)
    ensures AuthenticateOutcome(s, srv) == Outcome(true, s, [])
  {
  }

  /** Without a username or password (and nothing cached) it fails without a request. */
  lemma AuthenticateNeedsCredentials(s: Session, srv: Server)
    requires !HoldsCredentials(s)
    requires !Present(s.username) || !Present(s.password)
    ensures AuthenticateOutcome(s, srv) == Outcome(false, s, [])
  {
  }

  /**
   * `authenticate` sends at most one request: a POST to
   * `/Users/AuthenticateByName` with the configured credentials and no token
   * header. It leaves the configuration alone, and the token changes only
   * when that request was sent.
   */
  lemma AuthenticateSendsAtMostOneLogin(s: Session, srv: Server)
    ensures var o := AuthenticateOutcome(s, srv);
      && |o.sent| <= 1
      && (o.sent != [] ==> o.sent[0] == HttpRequest(Post, AuthenticateByName(s.username, s.password), ClientHeader, None))
      && (o.sent != [] <==> !HoldsCredentials(s) && Present(s.username) && Present(s.password) && s.baseUrl != "")
      && o.session.baseUrl == s.baseUrl && o.session.libraryId == s.libraryId
      && o.session.username == s.username && o.session.password == s.password
      && (!o.value ==> o.session.userId == s.userId)
      && (o.session.token != s.token ==> o.sent != [])
  {
  }

  /**
   * Authenticating twice: once the first call has stored a usable token and
   * user id, the second sends nothing, so the pair sends exactly one request
   * when nothing was cached before. (A server granting an empty token or id
   * would be asked again.)
   */
  lemma AuthenticateTwice(s: Session, srv: Server)
    requires !HoldsCredentials(s)
    requires AuthenticateOutcome(s, srv).value
    requires HoldsCredentials(AuthenticateOutcome(s, srv).session)
    ensures var o1 := AuthenticateOutcome(s, srv);
      var o2 := AuthenticateOutcome(o1.session, srv);
      o2 == Outcome(true, o1.session, []) && |o1.sent + o2.sent| == 1
  {
  }

  /** A reply with a token but no user stores the token and still reports failure. */
  lemma AuthenticateWithoutUserKeepsToken(s: Session, srv: Server, t: Scalar)
    requires !HoldsCredentials(s) && Present(s.username) && Present(s.password) && s.baseUrl != ""
    requires var req := HttpRequest(Post, AuthenticateByName(s.username, s.password), ClientHeader, None);
      req in srv && srv[req] == Login(NoUser(t))
    ensures AuthenticateOutcome(s, srv).value == false
    ensures AuthenticateOutcome(s, srv).session == s.(token := t)
  {
  }

  // ---------------------------------------------------------------------------
  // Libraries and the per-library loop

  /** The request the search loop sends for a library with id `parent`. */
  function SearchRequest(s: Session, kind: string, term: Scalar, parent: Scalar, mediaSources: bool): HttpRequest {
    HttpRequest(Get, SearchEndpoint(s, kind, term, parent, mediaSources), ClientHeader, TokenHeader(s, true))
  }

  /** After a cached authentication, `_libraries` sends exactly the views request, with the token. */
  lemma LibrariesWhenAuthenticated(s: Session, srv: Server)
    requires HoldsCredentials(s) && s.baseUrl != ""
    ensures var o := LibrariesOutcome(s, srv);
      o.session == s && o.sent == [HttpRequest(Get, Views(s.userId), ClientHeader, Some(s.token))]
  {
  }

  /**
   * A successful loop over the libraries sends one search per library, in the
   * order of the libraries, each with that library's id as `ParentId`.
   */
  lemma {:induction false} SearchInLibrariesQueriesEachLibrary(s: Session, srv: Server, libs: seq<Item>,
                                                               kind: string, term: Scalar, mediaSources: bool)
    requires s.baseUrl != ""
    requires SearchInLibraries(s, srv, libs, kind, term, mediaSources).result.Ok?
    ensures var st := SearchInLibraries(s, srv, libs, kind, term, mediaSources);
      && |st.sent| == |libs|
      && forall k :: 0 <= k < |libs| ==>
           libs[k].id.Some? && st.sent[k] == SearchRequest(s, kind, term, libs[k].id.value, mediaSources)
    decreases |libs|
  {
    if libs != [] {
      var init := libs[..|libs| - 1];
      SearchInLibrariesQueriesEachLibrary(s, srv, init, kind, term, mediaSources);
      var st := SearchInLibraries(s, srv, libs, kind, term, mediaSources);
      var before := SearchInLibraries(s, srv, init, kind, term, mediaSources);
      var last := LibrarySearch(s, srv, libs[|libs| - 1], kind, term, mediaSources);
      assert st.sent == before.sent + last.sent;
      assert last.sent == [SearchRequest(s, kind, term, libs[|libs| - 1].id.value, mediaSources)];
      forall k | 0 <= k < |libs|
        ensures libs[k].id.Some? && st.sent[k] == SearchRequest(s, kind, term, libs[k].id.value, mediaSources)
      {
        if k < |libs| - 1 {
          assert libs[k] == init[k];
        }
      }
    }
  }

  /** Running three stages in a row does not depend on how they are grouped. */
  lemma ThenAssociative(x: Stage<seq<Item>>, y: Stage<seq<Item>>, z: Stage<seq<Item>>)
    ensures Then(Then(x, y), z) == Then(x, Then(y, z))
  {
    if x.result.Ok? && y.result.Ok? {
      assert (x.sent + y.sent) + z.sent == x.sent + (y.sent + z.sent);
      if z.result.Ok? {
        assert (x.result.value + y.result.value) + z.result.value
            == x.result.value + (y.result.value + z.result.value);
      }
    }
  }

  /** A stage followed by nothing is itself. */
  lemma ThenEmpty(x: Stage<seq<Item>>)
    ensures Then(x, Stage(Ok([]), [])) == x
  {
    if x.result.Ok? {
      assert x.result.value + [] == x.result.value;
      assert x.sent + [] == x.sent;
    }
  }

  /**
   * Searching the libraries `a + b` searches `a`, then `b`: the requests and
   * the items come in library order and an exception stops everything after it.
   */
  lemma {:induction false} SearchInLibrariesAppend(s: Session, srv: Server, a: seq<Item>, b: seq<Item>,
                                                   kind: string, term: Scalar, mediaSources: bool)
    ensures SearchInLibraries(s, srv, a + b, kind, term, mediaSources)
         == Then(SearchInLibraries(s, srv, a, kind, term, mediaSources),
                 SearchInLibraries(s, srv, b, kind, term, mediaSources))
    decreases |b|
  {
    if b == [] {
      assert a + b == a;
      ThenEmpty(SearchInLibraries(s, srv, a, kind, term, mediaSources));
    } else {
      var b' := b[..|b| - 1];
      assert (a + b)[..|a + b| - 1] == a + b';
      assert (a + b)[|a + b| - 1] == b[|b| - 1];
      SearchInLibrariesAppend(s, srv, a, b', kind, term, mediaSources);
      ThenAssociative(SearchInLibraries(s, srv, a, kind, term, mediaSources),
                      SearchInLibraries(s, srv, b', kind, term, mediaSources),
                      LibrarySearch(s, srv, b[|b| - 1], kind, term, mediaSources));
    }
  }

  // ---------------------------------------------------------------------------
  // search_movie

  /**
   * With a library id configured, `search_movie` sends, after authenticating,
   * exactly one search: for movies in that library, asking for `MediaSources`.
   */
  lemma SearchMovieInConfiguredLibrary(s: Session, srv: Server, title: Scalar, year: Scalar)
    requires s.baseUrl != "" && s.libraryId != ""
    requires AuthenticateOutcome(s, srv).value
    ensures var a := AuthenticateOutcome(s, srv);
      var o := SearchMovieOutcome(s, srv, title, year);
      && o.session == a.session
      && o.sent == a.sent + [SearchRequest(a.session, MovieType, title, Text(s.libraryId), true)]
      && o.sent[|o.sent| - 1].endpoint.query
           == ItemsQuery("Movie", title, true, 50, Text(s.libraryId), true)
      && var req := o.sent[|o.sent| - 1];
         o.value == if req in srv then Ok(FilterByYear(ItemsOf(srv[req]), year)) else Raised
  {
  }

  /**
   * Without a library id, `search_movie` lists the libraries, then (when no
   * search raises) sends one movie search per library, in order, without
   * asking for `MediaSources`, and returns the year-filtered concatenation.
   */
  lemma SearchMovieAcrossLibraries(s: Session, srv: Server, title: Scalar, year: Scalar)
    requires s.baseUrl != "" && s.libraryId == ""
    requires AuthenticateOutcome(s, srv).value
    requires var a := AuthenticateOutcome(s, srv);
      var libs := LibrariesOutcome(a.session, srv);
      SearchInLibraries(libs.session, srv, libs.value, MovieType, title, false).result.Ok?
    ensures var a := AuthenticateOutcome(s, srv);
      var libs := LibrariesOutcome(a.session, srv);
      var st := SearchInLibraries(libs.session, srv, libs.value, MovieType, title, false);
      var o := SearchMovieOutcome(s, srv, title, year);
      && o.value == Ok(FilterByYear(st.result.value, year))
      && o.sent == a.sent + libs.sent + st.sent
      && |st.sent| == |libs.value|
      && forall k :: 0 <= k < |libs.value| ==>
           libs.value[k].id.Some?
           && st.sent[k] == SearchRequest(libs.session, MovieType, title, libs.value[k].id.value, false)
  {
    var a := AuthenticateOutcome(s, srv);
    var libs := LibrariesOutcome(a.session, srv);
    var st := SearchInLibraries(libs.session, srv, libs.value, MovieType, title, false);
    SearchInLibrariesQueriesEachLibrary(libs.session, srv, libs.value, MovieType, title, false);
    LogAppend(a.sent, libs.sent, st.sent);
  }

  /** An authentication failure makes `search_movie` return `[]` after the login attempt alone. */
  lemma SearchMovieWithoutAuthentication(s: Session, srv: Server, title: Scalar, year: Scalar)
    requires !AuthenticateOutcome(s, srv).value
    ensures var a := AuthenticateOutcome(s, srv);
      SearchMovieOutcome(s, srv, title, year) == Outcome(Ok([]), a.session, a.sent)
  {
  }

  /**
   * With a truthy year exactly the items of that year stay, in their order
   * and as often as they occur; with a falsy one, all of them.
   */
  lemma FilterByYearKeepsThatYear(items: seq<Item>, year: Scalar)
    ensures !Truthy(year) ==> FilterByYear(items, year) == items
    ensures Truthy(year) ==> forall x :: x in FilterByYear(items, year) <==> x in items && Matches(x, ProductionYear, year)
    ensures IsSubsequence(FilterByYear(items, year), items)
    ensures Truthy(year) ==>
      forall x :: multiset(FilterByYear(items, year))[x] == if Matches(x, ProductionYear, year) then multiset(items)[x] else 0
  {
    if Truthy(year) {
      KeepMatchingIsSubsequence(items, ProductionYear, year);
      KeepMatchingMembers(items, ProductionYear, year);
      forall x: Item
        ensures multiset(FilterByYear(items, year))[x] == if Matches(x, ProductionYear, year) then multiset(items)[x] else 0
      {
        KeepMatchingCount(items, ProductionYear, year, x);
      }
    } else {
      SubsequenceOfItself(items);
    }
  }

  /**
   * The year filter with an integer year keeps exactly the items whose
   * `ProductionYear` is that integer or its decimal spelling.
   */
  lemma FilterByIntYear(items: seq<Item>, y: int)
    requires y != 0
    ensures forall x :: x in FilterByYear(items, Int(y)) <==>
      x in items && (x.productionYear == Int(y) || x.productionYear == Text(IntStr(y)))
  {
    FilterByYearKeepsThatYear(items, Int(y));
    forall x: Item {
      StrEqualsIntStr(x.productionYear, y);
    }
  }

  /** A 2020 film is kept for the year `2020` or `"2020"` and dropped for `2019`. */
  lemma FilterByYearExample(film: Item)
    requires film.productionYear == Int(2020)
    ensures FilterByYear([film], Text("2020")) == [film]
    ensures FilterByYear([film], Int(2020)) == [film]
    ensures FilterByYear([film], Int(2019)) == []
  {
    assert Decimal(2020) == "2020" by {
      assert Decimal(2) == "2";
      assert Decimal(20) == "20";
      assert Decimal(202) == "202";
    }
    assert Decimal(2019) == "2019" by {
      assert Decimal(201) == "201";
    }
  }

  // ---------------------------------------------------------------------------
  // search_episode

  /** Without any series found, `search_episode` returns `[]` and asks for no episodes. */
  lemma SearchEpisodeWithoutShows(s: Session, srv: Server, showTitle: Scalar, season: Scalar, episode: Scalar)
    requires AuthenticateOutcome(s, srv).value
    requires CandidatesOutcome(AuthenticateOutcome(s, srv).session, srv, SeriesType, showTitle, true).value == Ok([])
    ensures var a := AuthenticateOutcome(s, srv);
      var c := CandidatesOutcome(a.session, srv, SeriesType, showTitle, true);
      SearchEpisodeOutcome(s, srv, showTitle, season, episode) == Outcome(Ok([]), c.session, a.sent + c.sent)
  {
  }

  /** Every episode the loop returns carries the requested episode number. */
  lemma {:induction false} SeasonEpisodesMatchEpisode(s: Session, srv: Server, shows: seq<Item>,
                                                      season: Scalar, episode: Scalar)
    requires SeasonEpisodes(s, srv, shows, season, episode).result.Ok?
    ensures var eps := SeasonEpisodes(s, srv, shows, season, episode).result.value;
      forall k :: 0 <= k < |eps| ==> Matches(eps[k], IndexNumber, episode)
    decreases |shows|
  {
    if shows != [] {
      SeasonEpisodesMatchEpisode(s, srv, shows[..|shows| - 1], season, episode);
    }
  }

  /** The episode request the loop sends for a series with id `show`. */
  function EpisodesRequest(s: Session, show: Scalar, season: Scalar): HttpRequest {
    HttpRequest(Get, Episodes(show, s.userId, season), ClientHeader, TokenHeader(s, true))
  }

  /** A successful episode loop asks for the season of every series, in order. */
  lemma {:induction false} SeasonEpisodesQueriesEachShow(s: Session, srv: Server, shows: seq<Item>,
                                                         season: Scalar, episode: Scalar)
    requires s.baseUrl != ""
    requires SeasonEpisodes(s, srv, shows, season, episode).result.Ok?
    ensures var st := SeasonEpisodes(s, srv, shows, season, episode);
      && |st.sent| == |shows|
      && forall k :: 0 <= k < |shows| ==>
           shows[k].id.Some? && st.sent[k] == EpisodesRequest(s, shows[k].id.value, season)
    decreases |shows|
  {
    if shows != [] {
      var init := shows[..|shows| - 1];
      SeasonEpisodesQueriesEachShow(s, srv, init, season, episode);
      var st := SeasonEpisodes(s, srv, shows, season, episode);
      var before := SeasonEpisodes(s, srv, init, season, episode);
      var last := ShowEpisodes(s, srv, shows[|shows| - 1], season, episode);
      assert st.sent == before.sent + last.sent;
      assert last.sent == [EpisodesRequest(s, shows[|shows| - 1].id.value, season)];
      forall k | 0 <= k < |shows|
        ensures shows[k].id.Some? && st.sent[k] == EpisodesRequest(s, shows[k].id.value, season)
      {
        if k < |shows| - 1 {
          assert shows[k] == init[k];
        }
      }
    }
  }

  /**
   * The episode loop over `a + b` runs over `a`, then `b`, concatenating
   * their episodes: nothing is merged or de-duplicated.
   */
  lemma {:induction false} SeasonEpisodesAppend(s: Session, srv: Server, a: seq<Item>, b: seq<Item>,
                                                season: Scalar, episode: Scalar)
    ensures SeasonEpisodes(s, srv, a + b, season, episode)
         == Then(SeasonEpisodes(s, srv, a, season, episode), SeasonEpisodes(s, srv, b, season, episode))
    decreases |b|
  {
    if b == [] {
      assert a + b == a;
      ThenEmpty(SeasonEpisodes(s, srv, a, season, episode));
    } else {
      var b' := b[..|b| - 1];
      assert (a + b)[..|a + b| - 1] == a + b';
      assert (a + b)[|a + b| - 1] == b[|b| - 1];
      SeasonEpisodesAppend(s, srv, a, b', season, episode);
      ThenAssociative(SeasonEpisodes(s, srv, a, season, episode), SeasonEpisodes(s, srv, b', season, episode),
                      ShowEpisodes(s, srv, b[|b| - 1], season, episode));
    }
  }

  /** A series found twice contributes its episodes twice. */
  lemma SeasonEpisodesKeepsDuplicates(s: Session, srv: Server, shows: seq<Item>, season: Scalar, episode: Scalar)
    requires SeasonEpisodes(s, srv, shows, season, episode).result.Ok?
    ensures var eps := SeasonEpisodes(s, srv, shows, season, episode).result.value;
      SeasonEpisodes(s, srv, shows + shows, season, episode).result == Ok(eps + eps)
  {
    SeasonEpisodesAppend(s, srv, shows, shows, season, episode);
  }

  // ---------------------------------------------------------------------------
  // stream_url

  const StreamPath: string := "/stream?static=true"
  const ApiKeyParameter: string := "&api_key="

  /** What a stream URL designates: the item id and, if any, the token. */
  datatype StreamTarget = StreamTarget(itemId: string, apiKey: Option<string>)

  /**
   * Reads a stream URL of the server at `base` back: the text between
   * `/Videos/` and the next `/`, then the token after `&api_key=` if present.
   */
  function ParseStreamUrl(url: string, base: string): Option<StreamTarget> {
    var prefix := base + "/Videos/";
    if |url| < |prefix| || url[..|prefix|] != prefix then None
    else
      var rest := url[|prefix|..];
      var id := Split(rest, '/')[0];
      var tail := rest[|id|..];
      if tail == StreamPath then Some(StreamTarget(id, None))
      else if |StreamPath + ApiKeyParameter| <= |tail| && tail[..|StreamPath + ApiKeyParameter|] == StreamPath + ApiKeyParameter
      then Some(StreamTarget(id, Some(tail[|StreamPath + ApiKeyParameter|..])))
      else None
  }

  lemma {:induction false} FirstPieceBeforeSeparator(a: string, b: string, sep: char)
    requires sep !in a
    ensures Split(a + [sep] + b, sep)[0] == a
    decreases |a|
  {
    if a == [] {
      assert a + [sep] + b == [sep] + b;
    } else {
      assert (a + [sep] + b)[1..] == a[1..] + [sep] + b;
      FirstPieceBeforeSeparator(a[1..], b, sep);
      assert [a[0]] + a[1..] == a;
    }
  }

  /** Parsing finds the id and the token of a URL built from its parts. */
  lemma {:induction false} ParseStreamUrlOfParts(base: string, id: string, key: Option<string>)
    requires '/' !in id
    ensures ParseStreamUrl(base + "/Videos/" + id + StreamPath
                             + (if key.Some? then ApiKeyParameter + key.value else ""), base)
         == Some(StreamTarget(id, key))
  {
    var prefix := base + "/Videos/";
    var tail := StreamPath + (if key.Some? then ApiKeyParameter + key.value else "");
    var rest := id + tail;
    var url := base + "/Videos/" + id + StreamPath + (if key.Some? then ApiKeyParameter + key.value else "");
    assert url == prefix + rest;
    assert url[..|prefix|] == prefix && url[|prefix|..] == rest;
    assert rest == id + ['/'] + tail[1..];
    FirstPieceBeforeSeparator(id, tail[1..], '/');
    assert rest[|id|..] == tail;
    if key.Some? {
      assert tail == (StreamPath + ApiKeyParameter) + key.value;
    }
  }

  /**
   * `stream_url` gives `''` without a base URL; otherwise the URL names the
   * item and carries the token exactly when one is held, and both can be read
   * back from it (for an id without `/`).
   */
  lemma StreamUrlRoundTrip(s: Session, itemId: Scalar)
    ensures s.baseUrl == "" <==> StreamUrl(s, itemId) == ""
    ensures s.baseUrl != "" && '/' !in Str(itemId) ==>
      ParseStreamUrl(StreamUrl(s, itemId), s.baseUrl)
        == Some(StreamTarget(Str(itemId), if Truthy(s.token) then Some(Str(s.token)) else None))
  {
    if s.baseUrl != "" && '/' !in Str(itemId) {
      var head := s.baseUrl + "/Videos/" + Str(itemId);
      if Truthy(s.token) {
        assert "/stream?static=true&api_key=" == StreamPath + ApiKeyParameter;
        assert StreamUrl(s, itemId) == head + StreamPath + (ApiKeyParameter + Str(s.token));
      } else {
        assert StreamUrl(s, itemId) == head + StreamPath + "";
      }
      ParseStreamUrlOfParts(s.baseUrl, Str(itemId), if Truthy(s.token) then Some(Str(s.token)) else None);
    }
  }
}
