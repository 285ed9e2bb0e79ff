/**
 * The Jellyfin scraper: given the metadata of the movie or episode being
 * looked for, it asks the Jellyfin client for matching items and turns each
 * into a source record whose URL streams the file straight from the server.
 *
 * The host add-on's helpers (alias extraction, title cleaning and checking,
 * file-name cleaning, release-info parsing) are outside this model: they are
 * arbitrary functions collected in `Host`, where `None` stands for a helper
 * that raised.
 */
module JellyfinScraper {
  import opened PyValues
  import opened PyStrings
  import opened Catalog
  import opened JellyfinApi

  /** `scrape_provider`, also written into several fields of every record. */
  const Provider: string := "jellyfin"

  /** The `media_type` that selects a movie search; anything else searches episodes. */
  const MovieMediaType: Scalar := Text("movie")

  /**
   * The metadata dictionary handed to `results`: each field is `info.get(key)`
   * (`Null` when absent); `aliases` is `info.get('aliases', [])`.
   */
  datatype Info = Info(
    mediaType: Scalar,
    title: Scalar,
    year: Scalar,
    season: Scalar,
    episode: Scalar,
    tvShowTitle: Scalar,
    aliases: seq<Scalar>)

  /** The host add-on's helpers; `None` is an exception. */
  datatype Host = Host(
    aliasesTitles: seq<Scalar> -> Option<seq<string>>,
    normalize: Scalar -> Option<string>,
    cleanTitle: string -> Option<string>,
    cleanFileName: Scalar -> Option<string>,
    /** `check_title(title, normalized, aliases, year, season, episode)` */
    checkTitle: (Scalar, string, seq<string>, Scalar, Scalar, Scalar) -> Option<bool>,
    /** `get_file_info(name_info=release_info_format(file_name))`: quality and details. */
    fileInfo: string -> Option<(Scalar, Scalar)>)

  /** A source record as built for one item (its `size` and `size_label` are not modelled). */
  datatype SourceRecord = SourceRecord(
    name: string,
    displayName: string,
    quality: Scalar,
    extraInfo: Scalar,
    urlDl: string,
    id: string,
    downloads: bool,
    direct: bool,
    source: string,
    debrid: string,
    scrapeProvider: string,
    directDebridLink: bool,
    folderId: string,
    cacheType: string,
    jellyfinId: Scalar)

  /** What every item of one scrape is checked against. */
  datatype Query = Query(
    title: Scalar,
    year: Scalar,
    season: Scalar,
    episode: Scalar,
    aliases: seq<string>,
    filterTitle: bool)

  /** `tvshowtitle or title` */
  function ShowTitle(info: Info): (t: Scalar)
    ensures Truthy(t) <==> Truthy(info.tvShowTitle) || Truthy(info.title)
    ensures Truthy(info.tvShowTitle) ==> t == info.tvShowTitle
  {
    if Truthy(info.tvShowTitle) then info.tvShowTitle else info.title
  }

  /** The path of the first media source if there is one, else the item's own `Path`. */
  function FilePath(item: Item): Scalar {
    if item.mediaSources != [] then item.mediaSources[0].path else item.path
  }

  /**
   * `file_path.split('/')[-1] if file_path else item.get('Name', title)`;
   * `None` when the path is truthy but not a string, whose missing `split`
   * raises.
   */
  function RawName(item: Item, title: Scalar): Option<Scalar> {
    var path := FilePath(item);
    if !Truthy(path) then Some(item.name.GetOr(title))
    else if path.Text? then Some(Text(LastPiece(path.s, '/')))
    else None
  }

  function MakeRecord(normalized: string, fileName: string, quality: Scalar, details: Scalar,
                      url: string, itemId: Scalar): SourceRecord
  {
    SourceRecord(
      name := normalized,
      displayName := fileName,
      quality := quality,
      extraInfo := details,
      urlDl := url,
      id := url,
      downloads := false,
      direct := true,
      source := Provider,
      debrid := Provider,
      scrapeProvider := Provider,
      directDebridLink := true,
      folderId := "",
      cacheType := "jellyfin",
      jellyfinId := itemId)
  }

  /**
   * The body of the item loop: the record built for `item`, or `None` when
   * the item is skipped, because a step raised or the title check failed.
   */
  function ItemRecord(item: Item, q: Query, s: Session, host: Host): Option<SourceRecord> {
    match RawName(item, q.title)
    case None => None
    case Some(name) =>
      match host.cleanFileName(name)
      case None => None
      case Some(fileName) =>
        match host.normalize(Text(fileName))
        case None => None
        case Some(normalized) =>
          if q.filterTitle && host.checkTitle(q.title, normalized, q.aliases, q.year, q.season, q.episode) != Some(true)
          then None
          else
            var itemId := item.id.GetOr(Null);
            match host.fileInfo(fileName)
            case None => None
            case Some(info) => Some(MakeRecord(normalized, fileName, info.0, info.1, StreamUrl(s, itemId), itemId))
  }

  function AsList<T>(o: Option<T>): seq<T> {
    if o.Some? then [o.value] else []
  }

  /** The records of the item loop, in item order. */
  function Records(items: seq<Item>, q: Query, s: Session, host: Host): seq<SourceRecord>
    decreases |items|
  {
    if items == [] then []
    else Records(items[..|items| - 1], q, s, host) + AsList(ItemRecord(items[|items| - 1], q, s, host))
  }

  lemma RecordsStep(items: seq<Item>, i: nat, q: Query, s: Session, host: Host)
    requires i < |items|
    ensures Records(items[..i + 1], q, s, host) == Records(items[..i], q, s, host) + AsList(ItemRecord(items[i], q, s, host))
  {
    assert items[..i + 1][..i] == items[..i];
  }

  /** The attributes `results` sets on the scraper. */
  datatype ScraperState = ScraperState(
    sources: seq<SourceRecord>,
    scrapeResults: seq<SourceRecord>,
    mediaType: Scalar,
    season: Scalar,
    episode: Scalar,
    folderQuery: Option<string>)

  /** The scraper's attributes, the client's session and the requests sent after one call of `results`. */
  datatype Scrape = Scrape(state: ScraperState, session: Session, sent: seq<HttpRequest>)

  /** The search `results` runs for `info`. */
  function SearchOutcome(s: Session, srv: Server, info: Info): (o: Outcome<Result<seq<Item>>>)
    ensures var a := AuthenticateOutcome(s, srv);
      !a.value ==> o == Outcome(Ok([]), a.session, a.sent)
  {
    if info.mediaType == MovieMediaType then SearchMovieOutcome(s, srv, info.title, info.year)
    else SearchEpisodeOutcome(s, srv, ShowTitle(info), info.season, info.episode)
  }

  /** `clean_title(normalize(title))` */
  function FolderQuery(host: Host, title: Scalar): Option<string> {
    match host.normalize(title)
    case None => None
    case Some(n) => host.cleanTitle(n)
  }

  /**
   * The search and the item loop of `results`: an exception or an empty
   * result leaves `sources` alone; otherwise the records built from the
   * items found become the new `sources`.
   */
  function SearchAndBuildOutcome(st: ScraperState, s: Session, srv: Server, host: Host, info: Info,
                          aliases: seq<string>, filterTitle: bool): Scrape
  {
    var o := SearchOutcome(s, srv, info);
    if o.value.Raised? || o.value.value == [] then Scrape(st, o.session, o.sent)
    else
      var q := Query(info.title, info.year, info.season, info.episode, aliases, filterTitle);
      var records := Records(o.value.value, q, o.session, host);
      Scrape(st.(scrapeResults := records, sources := records), o.session, o.sent)
  }

  /**
   * `results(info)`: every exception is caught, leaving the earlier
   * `sources` in place; so does a search that finds nothing. Otherwise the
   * records built from the items found become the new `sources`.
   */
  function ScrapeOutcome(st: ScraperState, s: Session, srv: Server, host: Host, info: Info,
                         filterTitle: bool): Scrape
  {
    var st1 := st.(scrapeResults := [], mediaType := info.mediaType, season := info.season, episode := info.episode);
    match host.aliasesTitles(info.aliases)
    case None => Scrape(st1, s, [])
    case Some(aliases) =>
      match FolderQuery(host, info.title)
      case None => Scrape(st1, s, [])
      case Some(folder) =>
        SearchAndBuildOutcome(st1.(folderQuery := Some(folder)), s, srv, host, info, aliases, filterTitle)
  }

  class Source {
    const api: JellyfinAPI
    /** The host add-on's helpers. */
    const host: Host
    var sources: seq<SourceRecord>
    var scrapeResults: seq<SourceRecord>
    var mediaType: Scalar
    var season: Scalar
    var episode: Scalar
    var folderQuery: Option<string>
    /** Every list handed to `internal_results`, in order. */
    ghost var reported: seq<seq<SourceRecord>>

    function State(): ScraperState
      reads this
    {
      ScraperState(sources, scrapeResults, mediaType, season, episode, folderQuery)
    }

    /** `source()`: a fresh client and no sources yet. */
    constructor (settings: Settings, server: Server, host: Host)
      ensures State() == ScraperState([], [], Null, Null, Null, None)
      ensures fresh(api) && api.Snapshot() == InitialSession(settings) && api.server == server && api.log == []
      ensures this.host == host && reported == []
    {
      api := new JellyfinAPI(settings, server);
      this.host := host;
      sources := [];
      scrapeResults := [];
      mediaType := Null;
      season := Null;
      episode := Null;
      folderQuery := None;
      reported := [];
    }

    /**
     * The `try` block of the item loop, step by step as the scraper runs it,
     * with an early `None` where the loop would `continue`. `ItemRecord` is
     * its specification: the same steps as one expression, which the loop
     * invariant of `BuildRecords` and the lemmas about records are stated in.
     */
    method BuildRecord(item: Item, q: Query) returns (record: Option<SourceRecord>)
      ensures record == ItemRecord(item, q, api.Snapshot(), host)
    {
      var media := item.mediaSources;
      var filePath := if media != [] then media[0].path else item.path;
      var name: Scalar;
      if Truthy(filePath) {
        if !filePath.Text? {
          return None;
        }
        name := Text(LastPiece(filePath.s, '/'));
      } else {
        name := item.name.GetOr(q.title);
      }
      var fileName := host.cleanFileName(name);
      if fileName.None? {
        return None;
      }
      var normalized := host.normalize(Text(fileName.value));
      if normalized.None? {
        return None;
      }
      if q.filterTitle {
        var okTitle := host.checkTitle(q.title, normalized.value, q.aliases, q.year, q.season, q.episode);
        if okTitle != Some(true) {
          return None;
        }
      }
      var itemId := item.id.GetOr(Null);
      var url := StreamUrl(api.Snapshot(), itemId);
      var fileInfo := host.fileInfo(fileName.value);
      if fileInfo.None? {
        return None;
      }
      return Some(MakeRecord(normalized.value, fileName.value, fileInfo.value.0, fileInfo.value.1, url, itemId));
    }

    /** The item loop of `results`, appending to `scrape_results`. */
    method BuildRecords(items: seq<Item>, q: Query)
      modifies this`scrapeResults
      ensures scrapeResults == old(scrapeResults) + Records(items, q, api.Snapshot(), host)
    {
      ghost var s := api.Snapshot();
      for idx := 0 to |items|
        invariant scrapeResults == old(scrapeResults) + Records(items[..idx], q, s, host)
      {
        RecordsStep(items, idx, q, s, host);
        var record := BuildRecord(items[idx], q);
        if record.None? {
          continue;
        }
        assert old(scrapeResults) + Records(items[..idx], q, s, host) + [record.value]
            == old(scrapeResults) + (Records(items[..idx], q, s, host) + [record.value]);
        scrapeResults := scrapeResults + [record.value];
      }
      assert items[..|items|] == items;
    }

    /** The search for `info` and the item loop. */
    method SearchAndBuild(info: Info, aliases: seq<string>, filterTitle: bool)
      requires scrapeResults == []
      modifies this`sources, this`scrapeResults, api`token, api`userId, api`log
      ensures var o := SearchAndBuildOutcome(old(State()), old(api.Snapshot()), api.server, host, info,
                                            aliases, filterTitle);
        && State() == o.state && api.Snapshot() == o.session && api.log == old(api.log) + o.sent
    {
      ghost var st := State();
      ghost var o := SearchOutcome(api.Snapshot(), api.server, info);
      var items: Result<seq<Item>>;
      if info.mediaType == MovieMediaType {
        items := api.SearchMovie(info.title, info.year);
      } else {
        var showTitle := if Truthy(info.tvShowTitle) then info.tvShowTitle else info.title;
        items := api.SearchEpisode(showTitle, info.season, info.episode);
      }
      assert items == o.value && api.Snapshot() == o.session && api.log == old(api.log) + o.sent;
      assert State() == st;
      if items.Ok? && items.value != [] {
        var q := Query(info.title, info.year, info.season, info.episode, aliases, filterTitle);
        BuildRecords(items.value, q);
        assert scrapeResults == Records(o.value.value, q, o.session, host);
        sources := scrapeResults;
      }
    }

    /** `results(info)`, with the `filter_by_name` setting passed in. */
    method Results(info: Info, filterTitle: bool) returns (r: seq<SourceRecord>)
      modifies this, api`token, api`userId, api`log
      ensures var o := ScrapeOutcome(old(State()), old(api.Snapshot()), api.server, host, info, filterTitle);
        && State() == o.state && api.Snapshot() == o.session && api.log == old(api.log) + o.sent
      ensures r == sources && reported == old(reported) + [sources]
    {
      scrapeResults := [];
      mediaType := info.mediaType;
      season := info.season;
      episode := info.episode;
      var aliases := host.aliasesTitles(info.aliases);
      var folder := if aliases.Some? then FolderQuery(host, info.title) else None;
      if aliases.Some? && folder.Some? {
        folderQuery := folder;
        SearchAndBuild(info, aliases.value, filterTitle);
      }
      reported := reported + [sources];
      return sources;
    }
  }
}
