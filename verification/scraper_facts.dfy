/**
 * Properties of the Jellyfin scraper, proved about the functions that specify
 * `results` and its item loop.
 */
module JellyfinScraperFacts {
  import opened PyValues
  import opened PyStrings
  import opened Catalog
  import opened JellyfinApi
  import opened JellyfinScraper

  /** The fixed part of every record: a direct stream from the server, tagged as coming from Jellyfin. */
  predicate DirectStream(r: SourceRecord, s: Session) {
    && r.urlDl == StreamUrl(s, r.jellyfinId)
    && r.id == r.urlDl
    && r.source == Provider && r.debrid == Provider && r.scrapeProvider == Provider
    && r.cacheType == "jellyfin" && r.folderId == ""
    && r.direct && r.directDebridLink && !r.downloads
  }

  /**
   * An item yields a record exactly when every helper succeeds on it and, with
   * the title filter on, the title check answers `True`; the record carries
   * the cleaned file name, its normalized form, the release info of the file
   * name and the stream URL of the item's `Id`.
   */
  lemma ItemRecordFacts(item: Item, q: Query, s: Session, host: Host)
    ensures var rec := ItemRecord(item, q, s, host);
      var raw := RawName(item, q.title);
      var fileName := if raw.Some? then host.cleanFileName(raw.value) else None;
      var normalized := if fileName.Some? then host.normalize(Text(fileName.value)) else None;
      && (rec.Some? <==>
            && normalized.Some?
            && (q.filterTitle ==> host.checkTitle(q.title, normalized.value, q.aliases, q.year, q.season, q.episode) == Some(true))
            && host.fileInfo(fileName.value).Some?)
      && (rec.Some? ==>
            && DirectStream(rec.value, s)
            && rec.value.jellyfinId == item.id.GetOr(Null)
            && rec.value.displayName == fileName.value
            && rec.value.name == normalized.value
            && host.fileInfo(fileName.value) == Some((rec.value.quality, rec.value.extraInfo)))
  {
  }

  /**
   * The name a record is built from: the last component of the file path
   * (the first media source's path, else the item's own `Path`), or, without
   * a path, the item's `Name`, or the searched title when that is absent.
   * A path that is neither empty nor a string raises.
   */
  lemma RawNameCases(item: Item, title: Scalar)
    ensures var path := FilePath(item);
      && (item.mediaSources != [] ==> path == item.mediaSources[0].path)
      && (!Truthy(path) ==> RawName(item, title) == Some(item.name.GetOr(title)))
      && (Truthy(path) && !path.Text? ==> RawName(item, title) == None)
      && (Truthy(path) && path.Text? ==>
            && RawName(item, title).Some? && RawName(item, title).value.Text?
            && var n := RawName(item, title).value.s;
            && '/' !in n
            && |n| <= |path.s| && path.s[|path.s| - |n|..] == n
            && (|n| < |path.s| ==> path.s[|path.s| - |n| - 1] == '/'))
  {
    var path := FilePath(item);
    if Truthy(path) && path.Text? {
      LastPieceIsSuffix(path.s, '/');
    }
  }

  /** The records of two runs of items, one after the other, are those of the whole run, in order. */
  lemma {:induction false} RecordsAppend(a: seq<Item>, b: seq<Item>, q: Query, s: Session, host: Host)
    ensures Records(a + b, q, s, host) == Records(a, q, s, host) + Records(b, q, s, host)
    decreases |b|
  {
    if b == [] {
      assert a + b == a;
    } else {
      var init := b[..|b| - 1];
      var last := b[|b| - 1];
      RecordsAppend(a, init, q, s, host);
      assert (a + b)[..|a + b| - 1] == a + init;
      assert (a + b)[|a + b| - 1] == last;
    }
  }

  /** No item of `items` is skipped. */
  predicate NoneSkipped(items: seq<Item>, q: Query, s: Session, host: Host) {
    forall k :: 0 <= k < |items| ==> ItemRecord(items[k], q, s, host).Some?
  }

  lemma NoneSkippedSplit(items: seq<Item>, q: Query, s: Session, host: Host)
    requires items != []
    ensures NoneSkipped(items, q, s, host) <==>
      NoneSkipped(items[..|items| - 1], q, s, host) && ItemRecord(items[|items| - 1], q, s, host).Some?
  {
    var init := items[..|items| - 1];
    if NoneSkipped(init, q, s, host) && ItemRecord(items[|items| - 1], q, s, host).Some? {
      forall k | 0 <= k < |items| ensures ItemRecord(items[k], q, s, host).Some? {
        if k < |init| {
          assert items[k] == init[k];
        }
      }
    }
    if NoneSkipped(items, q, s, host) {
      forall k | 0 <= k < |init| ensures ItemRecord(init[k], q, s, host).Some? {
        assert items[k] == init[k];
      }
    }
  }

  /** At most one record per item. */
  lemma {:induction false} RecordsAtMostOnePerItem(items: seq<Item>, q: Query, s: Session, host: Host)
    ensures |Records(items, q, s, host)| <= |items|
    decreases |items|
  {
    if items != [] {
      RecordsAtMostOnePerItem(items[..|items| - 1], q, s, host);
    }
  }

  /** One record for every item exactly when no item is skipped. */
  lemma {:induction false} RecordsCount(items: seq<Item>, q: Query, s: Session, host: Host)
    ensures |Records(items, q, s, host)| == |items| <==> NoneSkipped(items, q, s, host)
    decreases |items|
  {
    if items != [] {
      var init := items[..|items| - 1];
      RecordsAtMostOnePerItem(init, q, s, host);
      RecordsCount(init, q, s, host);
      NoneSkippedSplit(items, q, s, host);
    }
  }

  /** Every record comes from one of the items. */
  lemma {:induction false} RecordsComeFromItems(items: seq<Item>, q: Query, s: Session, host: Host)
    ensures forall r :: r in Records(items, q, s, host) ==>
      exists k :: 0 <= k < |items| && ItemRecord(items[k], q, s, host) == Some(r)
    decreases |items|
  {
    if items != [] {
      var init := items[..|items| - 1];
      var lastRecord := ItemRecord(items[|items| - 1], q, s, host);
      RecordsComeFromItems(init, q, s, host);
      assert Records(items, q, s, host) == Records(init, q, s, host) + AsList(lastRecord);
      forall r | r in Records(items, q, s, host)
        ensures exists k :: 0 <= k < |items| && ItemRecord(items[k], q, s, host) == Some(r)
      {
        if r in Records(init, q, s, host) {
          var k :| 0 <= k < |init| && ItemRecord(init[k], q, s, host) == Some(r);
          assert items[k] == init[k];
        } else {
          assert lastRecord == Some(r);
        }
      }
    }
  }

  /** The record of an item that is not skipped is among the records. */
  lemma {:induction false} KeptItemGivesRecord(items: seq<Item>, k: nat, r: SourceRecord, q: Query, s: Session,
                                               host: Host)
    requires k < |items| && ItemRecord(items[k], q, s, host) == Some(r)
    ensures r in Records(items, q, s, host)
    decreases |items|
  {
    var init := items[..|items| - 1];
    var lastRecord := ItemRecord(items[|items| - 1], q, s, host);
    assert Records(items, q, s, host) == Records(init, q, s, host) + AsList(lastRecord);
    if k < |init| {
      assert ItemRecord(init[k], q, s, host) == Some(r) by {
        assert items[k] == init[k];
      }
      KeptItemGivesRecord(init, k, r, q, s, host);
    } else {
      assert lastRecord == Some(r) by {
        assert k == |items| - 1;
      }
    }
  }

  /** Every item that is not skipped contributes its record. */
  lemma KeptItemsGiveRecords(items: seq<Item>, q: Query, s: Session, host: Host)
    ensures forall k :: 0 <= k < |items| && ItemRecord(items[k], q, s, host).Some? ==>
      ItemRecord(items[k], q, s, host).value in Records(items, q, s, host)
  {
    forall k | 0 <= k < |items| && ItemRecord(items[k], q, s, host).Some?
      ensures ItemRecord(items[k], q, s, host).value in Records(items, q, s, host)
    {
      KeptItemGivesRecord(items, k, ItemRecord(items[k], q, s, host).value, q, s, host);
    }
  }

  /**
   * Every record streams its item straight from the server; with the title
   * filter on, every record's name passed the title check.
   */
  lemma RecordsStreamFromServer(items: seq<Item>, q: Query, s: Session, host: Host)
    ensures forall r :: r in Records(items, q, s, host) ==> DirectStream(r, s)
    ensures q.filterTitle ==> forall r :: r in Records(items, q, s, host) ==>
      host.checkTitle(q.title, r.name, q.aliases, q.year, q.season, q.episode) == Some(true)
  {
    RecordsComeFromItems(items, q, s, host);
    forall r | r in Records(items, q, s, host)
      ensures DirectStream(r, s)
      ensures q.filterTitle ==> host.checkTitle(q.title, r.name, q.aliases, q.year, q.season, q.episode) == Some(true)
    {
      var k :| 0 <= k < |items| && ItemRecord(items[k], q, s, host) == Some(r);
      ItemRecordFacts(items[k], q, s, host);
    }
  }

  /** With the title filter off, the title check is never consulted. */
  lemma {:induction false} RecordsIgnoreTitleCheckWhenUnfiltered(items: seq<Item>, q: Query, s: Session, host: Host,
                                                                 other: (Scalar, string, seq<string>, Scalar, Scalar, Scalar) -> Option<bool>)
    requires !q.filterTitle
    ensures Records(items, q, s, host) == Records(items, q, s, host.(checkTitle := other))
    decreases |items|
  {
    if items != [] {
      RecordsIgnoreTitleCheckWhenUnfiltered(items[..|items| - 1], q, s, host, other);
    }
  }

  /** The records whose name passes the title check, in order. */
  function PassingTitleCheck(records: seq<SourceRecord>, q: Query, host: Host): seq<SourceRecord>
    decreases |records|
  {
    if records == [] then []
    else
      var last := records[|records| - 1];
      PassingTitleCheck(records[..|records| - 1], q, host)
        + (if host.checkTitle(q.title, last.name, q.aliases, q.year, q.season, q.episode) == Some(true) then [last] else [])
  }

  /**
   * Turning the title filter on drops exactly the records whose name fails
   * the title check, and keeps the others in their order.
   */
  lemma {:induction false} FilterKeepsPassingRecords(items: seq<Item>, q: Query, s: Session, host: Host)
    ensures Records(items, q.(filterTitle := true), s, host)
         == PassingTitleCheck(Records(items, q.(filterTitle := false), s, host), q, host)
    decreases |items|
  {
    if items != [] {
      var on := q.(filterTitle := true);
      var off := q.(filterTitle := false);
      var init := items[..|items| - 1];
      var last := items[|items| - 1];
      FilterKeepsPassingRecords(init, q, s, host);
      var before := Records(init, off, s, host);
      match ItemRecord(last, off, s, host)
      case None =>
        assert Records(items, off, s, host) == before + [];
        assert before + [] == before;
      case Some(r) =>
        var all := before + [r];
        assert Records(items, off, s, host) == all;
        assert all[..|all| - 1] == before;
    }
  }

  /**
   * Every call records the media type, season and episode it was asked for,
   * and ends either with the earlier `sources` or with `sources` and
   * `scrape_results` holding the same fresh records.
   */
  lemma ScrapeOutcomeShape(st: ScraperState, s: Session, srv: Server, host: Host, info: Info, filterTitle: bool)
    ensures var o := ScrapeOutcome(st, s, srv, host, info, filterTitle);
      && o.state.mediaType == info.mediaType && o.state.season == info.season && o.state.episode == info.episode
      && ((o.state.sources == st.sources && o.state.scrapeResults == []) || o.state.sources == o.state.scrapeResults)
  {
  }

  /**
   * When the alias or title helpers raise, nothing is searched: the earlier
   * sources are returned and the client is left alone.
   */
  lemma ScrapeWithoutQuery(st: ScraperState, s: Session, srv: Server, host: Host, info: Info, filterTitle: bool)
    requires host.aliasesTitles(info.aliases).None? || FolderQuery(host, info.title).None?
    ensures var o := ScrapeOutcome(st, s, srv, host, info, filterTitle);
      && o.state.sources == st.sources && o.state.scrapeResults == [] && o.state.folderQuery == st.folderQuery
      && o.session == s && o.sent == []
  {
  }

  /**
   * A search that raises or finds nothing leaves `sources` as the previous
   * call left them: the earlier records are returned again.
   */
  lemma ScrapeKeepsSourcesWhenNothingFound(st: ScraperState, s: Session, srv: Server, host: Host, info: Info,
                                           filterTitle: bool)
    requires host.aliasesTitles(info.aliases).Some? && FolderQuery(host, info.title).Some?
    requires var found := SearchOutcome(s, srv, info).value; found.Raised? || found.value == []
    ensures var o := ScrapeOutcome(st, s, srv, host, info, filterTitle);
      var search := SearchOutcome(s, srv, info);
      && o.state.sources == st.sources && o.state.scrapeResults == []
      && o.state.folderQuery == FolderQuery(host, info.title)
      && o.session == search.session && o.sent == search.sent
  {
  }

  /**
   * A search that finds items replaces `sources` by the records built from
   * them with the session the search left (see `RecordsAtMostOnePerItem` and
   * `RecordsStreamFromServer` for what those records are).
   */
  lemma ScrapeBuildsRecordsFromItemsFound(st: ScraperState, s: Session, srv: Server, host: Host, info: Info,
                                          filterTitle: bool)
    requires host.aliasesTitles(info.aliases).Some? && FolderQuery(host, info.title).Some?
    requires var found := SearchOutcome(s, srv, info).value; found.Ok? && found.value != []
    ensures var o := ScrapeOutcome(st, s, srv, host, info, filterTitle);
      var search := SearchOutcome(s, srv, info);
      var q := Query(info.title, info.year, info.season, info.episode, host.aliasesTitles(info.aliases).value, filterTitle);
      && o.state.sources == o.state.scrapeResults == Records(search.value.value, q, search.session, host)
      && o.session == search.session && o.sent == search.sent
  {
  }

  /** Without credentials the client returns no items, so the earlier sources stay. */
  lemma ScrapeWithoutCredentialsKeepsSources(st: ScraperState, s: Session, srv: Server, host: Host, info: Info,
                                             filterTitle: bool)
    requires !AuthenticateOutcome(s, srv).value
    ensures var o := ScrapeOutcome(st, s, srv, host, info, filterTitle);
      o.state.sources == st.sources && o.state.scrapeResults == []
  {
    assert SearchOutcome(s, srv, info).value == Ok([]);
  }

  /** An episode search without a show title searches for the title itself. */
  lemma ScrapeShowTitleFallsBackToTitle(st: ScraperState, s: Session, srv: Server, host: Host, info: Info,
                                        filterTitle: bool)
    requires info.mediaType != MovieMediaType && !Truthy(info.tvShowTitle)
    ensures ScrapeOutcome(st, s, srv, host, info, filterTitle)
         == ScrapeOutcome(st, s, srv, host, info.(tvShowTitle := info.title), filterTitle)
  {
    assert ShowTitle(info) == ShowTitle(info.(tvShowTitle := info.title));
  }
}
