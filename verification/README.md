# Jellyfin source for the Fenlight add-on, modelled in Dafny

This project models the part of the add-on that finds playable files on a
Jellyfin media server. It has two pieces.

- **The client `JellyfinAPI`** (`resources/lib/apis/jellyfin_api.py`).
  - Setup normalises the configured base URL and library id.
  - `authenticate` logs in once and caches the access token and user id.
  - `search_movie` and `search_episode` query either the one configured library or every library of the user, in order.
    Movies are kept when their `ProductionYear` matches the year as text.
    For every series found, the episodes of the requested season are fetched, and those whose `IndexNumber` matches are kept.
  - `stream_url` builds the direct-stream URL of an item.
- **The scraper `source.results`** (`resources/lib/scrapers/jellyfin.py`).
  - It dispatches to the movie or the episode search.
  - It turns each item found into a source record: the file name is the last `/` component of the item's path, optionally filtered by a title check.
    The record's `id` and `url_dl` are the item's stream URL.
  - Items whose processing raises are skipped.
  - When nothing is found, or anything raises, it returns the sources of the *previous* call unchanged.

The network is an abstract `Server`, a map from each request the client can send to the reply it gets.
A request missing from the map stands for a transport error, which makes `_request` raise.

Both classes carry ghost histories:

- `JellyfinAPI.log` is every request sent, in order;
- `Source.reported` is every list handed to the host's `internal_results`.

Every method is proved against a pure function of the old state (`AuthenticateOutcome`, `SearchMovieOutcome`, `ScrapeOutcome`, …).
Its `ensures` states that the result, the new fields and the appended requests are exactly that function's.
The lemmas in `jellyfin_api_facts.dfy` and `scraper_facts.dfy` then state what those functions promise.

Python values are explicit:

- `Scalar` is a JSON scalar; `Truthy` is Python truthiness.
- `Str` is `str()`; `str.strip`, `rstrip`, `lower` and `split` are written out.
- An exception is `Result.Raised`; a host helper that raises returns `None`.

Behaviours of the code that the model keeps as written:

- `search_movie` over all libraries does not ask for `Fields=MediaSources`; only the configured-library branch does (jellyfin_api.py:124-126 against 135-137).
- A login reply with a token but no user stores the token and still fails, because line 83 runs before line 84 raises.
- Request errors inside `search_movie` and `search_episode` are not caught there. They raise out of the search, and the scraper's outer `except` catches them.
- Libraries and series read their `Id` with `[...]`, so one without an `Id` makes the whole search raise.
- After a search that finds nothing or raises, `results` returns the `sources` of the previous call, not an empty list.
  A scraper reused for another title therefore reports the earlier title's records again.

## Model

| member | source | states |
|---|---|---|
| JellyfinApi.NormalizeBaseUrl | resources/lib/apis/jellyfin_api.py:17 | the base URL is the configured URL (or `''`) with its trailing `/` characters removed and nothing else changed; it never ends in `/` |
| JellyfinApi.NormalizeLibraryId | resources/lib/apis/jellyfin_api.py:22-26 | the library id is `''` exactly when the stripped setting is a sentinel in any letter case; otherwise it is the stripped setting, which is not a sentinel |
| JellyfinApiFacts.InitialSessionIsNormalized | resources/lib/apis/jellyfin_api.py:15-29 | a new client holds no token and no user id, its base URL has no trailing `/`, and its library id is `''` or the stripped, non-sentinel setting |
| JellyfinApiFacts.NormalizeLibraryIdIdempotent | resources/lib/apis/jellyfin_api.py:22-26 | normalising an already normalised library id leaves it unchanged |
| JellyfinApiFacts.UpperCaseSentinelIsCleared | resources/lib/apis/jellyfin_api.py:22-25 | the setting `NULL` is recognised as a sentinel despite its case and becomes `''` |
| JellyfinApi.JellyfinAPI.constructor | resources/lib/apis/jellyfin_api.py:15-35 | the new client's session is the normalised configuration with no credentials, and its log is empty |
| JellyfinApiFacts.RequestSendsOneRequest | resources/lib/apis/jellyfin_api.py:39-65 | with no base URL nothing is sent and the call raises; otherwise exactly one request is sent with the client header, carrying the token exactly when asked for and held, and the reply is the server's answer, or an exception when there is none |
| JellyfinApi.JellyfinAPI.Request | resources/lib/apis/jellyfin_api.py:39-65 | the reply and the appended log entry are those of `RequestOutcome`; the session is untouched |
| JellyfinApiFacts.AuthenticateCached | resources/lib/apis/jellyfin_api.py:67-69 | with token and user id held, `authenticate` returns true, sends nothing and changes nothing |
| JellyfinApiFacts.AuthenticateNeedsCredentials | resources/lib/apis/jellyfin_api.py:71-73 | without username or password it returns false with no request and no change |
| JellyfinApiFacts.AuthenticateSendsAtMostOneLogin | resources/lib/apis/jellyfin_api.py:67-89 | at most one request is sent, the POST to `/Users/AuthenticateByName` with the credentials and no token, exactly when nothing is cached, the credentials are present and a base URL is set; the configuration never changes, a failure never sets the user id, and the token changes only when that request was sent (a login reply without a user can clear it) |
| JellyfinApiFacts.AuthenticateTwice | resources/lib/apis/jellyfin_api.py:67-86 | after a login that stores usable credentials, a second `authenticate` sends nothing, so the two calls send exactly one request |
| JellyfinApiFacts.AuthenticateWithoutUserKeepsToken | resources/lib/apis/jellyfin_api.py:83-89 | a reply with a token but no user stores the token and returns false |
| JellyfinApi.JellyfinAPI.Authenticate | resources/lib/apis/jellyfin_api.py:67-89 | the result, the new token and user id, and the requests sent are those of `AuthenticateOutcome` |
| JellyfinApiFacts.LibrariesWhenAuthenticated | resources/lib/apis/jellyfin_api.py:91-102 | once authenticated, `_libraries` sends exactly the views request for the user, with the token |
| JellyfinApi.JellyfinAPI.Libraries | resources/lib/apis/jellyfin_api.py:91-105 | the libraries, session and requests are those of `LibrariesOutcome`; an error yields `[]` |
| JellyfinApi.JellyfinAPI.SearchOneLibrary | resources/lib/apis/jellyfin_api.py:134-142 | one iteration of the library loop: a library without `Id` raises before any request, otherwise one search with that `ParentId` |
| JellyfinApi.JellyfinAPI.SearchLibraries | resources/lib/apis/jellyfin_api.py:133-142 | the loop over the libraries yields the items and requests of `SearchInLibraries`, stopping at the first exception |
| JellyfinApiFacts.SearchInLibrariesQueriesEachLibrary | resources/lib/apis/jellyfin_api.py:134-142 | a loop that does not raise sends one search per library, in library order, each with that library's id as `ParentId` |
| JellyfinApiFacts.SearchInLibrariesAppend | resources/lib/apis/jellyfin_api.py:134-142 | searching libraries `a + b` is searching `a` then `b`: items and requests concatenate in order, and an exception in `a` ends the loop |
| JellyfinApi.JellyfinAPI.FindCandidates | resources/lib/apis/jellyfin_api.py:123-142 | the items and requests of one search in the configured library, or of the library listing followed by the loop |
| JellyfinApiFacts.SearchMovieInConfiguredLibrary | resources/lib/apis/jellyfin_api.py:123-130 | with a library id, `search_movie` sends after authentication exactly one search: movies, the title, recursive, limit 50, that `ParentId`, with `MediaSources`; the result is that reply's items filtered by year, or a raise when the request fails |
| JellyfinApiFacts.SearchMovieAcrossLibraries | resources/lib/apis/jellyfin_api.py:131-150 | without a library id it lists the libraries and sends one movie search per library in order, without `MediaSources`, returning the year-filtered concatenation |
| JellyfinApiFacts.SearchMovieWithoutAuthentication | resources/lib/apis/jellyfin_api.py:109-111 | a failed authentication makes `search_movie` return `[]` after the login attempt alone |
| JellyfinApiFacts.FilterByYearKeepsThatYear | resources/lib/apis/jellyfin_api.py:146-150 | a falsy year keeps every item; a truthy one keeps exactly the items whose `str(ProductionYear)` equals `str(year)`, in their original order and as often as they occur |
| JellyfinApiFacts.FilterByIntYear | resources/lib/apis/jellyfin_api.py:146-147 | for a non-zero integer year, an item is kept exactly when its `ProductionYear` is that integer or its decimal spelling |
| JellyfinApiFacts.FilterByYearExample | resources/lib/apis/jellyfin_api.py:146-147 | a 2020 film is kept for the years `"2020"` and `2020` and dropped for `2019` |
| JellyfinApi.JellyfinAPI.SearchMovie | resources/lib/apis/jellyfin_api.py:107-150 | the result, session and requests are those of `SearchMovieOutcome` |
| JellyfinApiFacts.SearchEpisodeWithoutShows | resources/lib/apis/jellyfin_api.py:189-191 | with no series found, `search_episode` returns `[]` and asks for no episodes |
| JellyfinApiFacts.SeasonEpisodesMatchEpisode | resources/lib/apis/jellyfin_api.py:211-220 | every episode returned has `str(IndexNumber) == str(episode)` |
| JellyfinApiFacts.SeasonEpisodesQueriesEachShow | resources/lib/apis/jellyfin_api.py:196-208 | an episode loop that does not raise asks for the season of every series, in series order, with the user id |
| JellyfinApiFacts.SeasonEpisodesAppend | resources/lib/apis/jellyfin_api.py:195-223 | the loop over series `a + b` is the loop over `a` followed by the loop over `b`: the episodes concatenate in series order |
| JellyfinApiFacts.SeasonEpisodesKeepsDuplicates | resources/lib/apis/jellyfin_api.py:195-223 | a series list found twice yields its episodes twice: nothing is de-duplicated |
| JellyfinApi.JellyfinAPI.FetchSeason | resources/lib/apis/jellyfin_api.py:197-208 | one season request per series; a series without `Id` raises before it |
| JellyfinApi.JellyfinAPI.CollectEpisodes | resources/lib/apis/jellyfin_api.py:195-223 | the loop over the series yields the episodes and requests of `SeasonEpisodes`, skipping empty seasons and stopping at the first exception |
| JellyfinApi.JellyfinAPI.FindEpisodes | resources/lib/apis/jellyfin_api.py:158-223 | the series search followed, when it found any, by the episode loop, as `EpisodesOfShows` |
| JellyfinApi.JellyfinAPI.SearchEpisode | resources/lib/apis/jellyfin_api.py:152-223 | the result, session and requests are those of `SearchEpisodeOutcome` |
| JellyfinApi.StreamUrl | resources/lib/apis/jellyfin_api.py:225-232 | the URL is `''` exactly when there is no base URL; otherwise, for every item id, it starts with the base URL, `/Videos/`, `str(item_id)` and `/stream?static=true` |
| JellyfinApiFacts.StreamUrlRoundTrip | resources/lib/apis/jellyfin_api.py:225-232 | the URL is `''` exactly when there is no base URL; otherwise, for an item id whose `str()` holds no `/`, reading it back under the base URL gives the item id and, exactly when a token is held, the token as `api_key` |
| JellyfinApi.FilterByYear | resources/lib/apis/jellyfin_api.py:146-150 | the filtered list is never longer than the search's, and a falsy year leaves it unchanged |
| PyValues.Truthy | resources/lib/apis/jellyfin_api.py:68 | a value is false exactly when it is `None`, `False`, `0` or `''` |
| PyValues.Str | resources/lib/apis/jellyfin_api.py:147 | `str()` is empty only for the empty string, and an integer's starts with `-` exactly when it is negative |
| PyStrings.Lower | resources/lib/apis/jellyfin_api.py:24 | `lower()` keeps the length, turns each ASCII capital into its small letter, and changes no other character |
| JellyfinScraper.ShowTitle | resources/lib/scrapers/jellyfin.py:41 | `tvshowtitle or title`: a truthy show title is used as is, and the result is truthy exactly when one of the two is |
| JellyfinScraper.SearchOutcome | resources/lib/scrapers/jellyfin.py:37-43 | the dispatch to `search_movie` or `search_episode`; whichever runs, a failed authentication returns `[]` after the login attempt alone |
| Catalog.KeepMatching | resources/lib/apis/jellyfin_api.py:215-218 | the filtered list is no longer than the input and every item kept matches |
| Catalog.KeepMatchingMembers | resources/lib/apis/jellyfin_api.py:215-218 | an item is in the filtered list exactly when it is in the input and matches |
| Catalog.KeepMatchingIsSubsequence | resources/lib/apis/jellyfin_api.py:215-218 | the filter keeps the input's relative order |
| Catalog.KeepMatchingCount | resources/lib/apis/jellyfin_api.py:215-218 | each matching item is kept as often as it occurs, the others never |
| Catalog.KeepMatchingAppend | resources/lib/apis/jellyfin_api.py:215-218 | filtering a concatenation is concatenating the filtered parts |
| PyValues.StrEqualsIntStr | resources/lib/apis/jellyfin_api.py:147 | `str(v) == str(y)` for an integer `y` holds exactly for `y` and its decimal spelling |
| PyValues.IntStrInjective | resources/lib/apis/jellyfin_api.py:147 | different integers have different `str()` |
| PyValues.ParseDecimalOfDecimal | resources/lib/apis/jellyfin_api.py:147 | reading a decimal numeral back gives the number |
| PyStrings.RStrip | resources/lib/apis/jellyfin_api.py:17 | the result is a prefix of the input, everything removed is in the strip set, and it does not end in one |
| PyStrings.LStrip | resources/lib/apis/jellyfin_api.py:23 | the result is a suffix of the input, everything removed is in the strip set, and it does not start with one |
| PyStrings.StripIdempotent | resources/lib/apis/jellyfin_api.py:23 | stripping twice is stripping once |
| PyStrings.Split | resources/lib/scrapers/jellyfin.py:59 | at least one piece, no piece contains the separator, and the first piece begins the string |
| PyStrings.JoinSplit | resources/lib/scrapers/jellyfin.py:59 | joining the pieces of a split gives the string back |
| PyStrings.SplitJoin | resources/lib/scrapers/jellyfin.py:59 | splitting a join of separator-free pieces gives the pieces back |
| PyStrings.LastPieceIsSuffix | resources/lib/scrapers/jellyfin.py:59 | `split('/')[-1]` has no `/`, ends the string, and is the whole string or follows a `/` |
| JellyfinScraper.Source.constructor | resources/lib/scrapers/jellyfin.py:9-14 | a new scraper has no sources and a fresh client built from the settings |
| JellyfinScraper.Source.BuildRecord | resources/lib/scrapers/jellyfin.py:55-114 | the body of the item loop yields exactly `ItemRecord`: a record, or nothing when a step raises or the title check fails |
| JellyfinScraper.Source.BuildRecords | resources/lib/scrapers/jellyfin.py:52-114 | the item loop appends exactly `Records(items)` to `scrape_results` |
| JellyfinScraper.Source.SearchAndBuild | resources/lib/scrapers/jellyfin.py:36-116 | the dispatch, the search and the item loop change the scraper, the client and the log as `SearchAndBuildOutcome` says |
| JellyfinScraper.Source.Results | resources/lib/scrapers/jellyfin.py:16-124 | the new attributes, the client session and the requests are those of `ScrapeOutcome`; the list returned and handed to `internal_results` is the new `sources` |
| JellyfinScraperFacts.ItemRecordFacts | resources/lib/scrapers/jellyfin.py:55-114 | an item yields a record exactly when every helper succeeds and, with the filter on, the title check answers true; the record holds the cleaned file name, its normalised form, its release info and the item id |
| JellyfinScraperFacts.RawNameCases | resources/lib/scrapers/jellyfin.py:57-59 | the first media source's path wins over `Path`; a truthy path gives its last `/` component, a suffix of the path with no `/`; a falsy path (absent, null, `''`, `0`, `false`) gives `Name`, else the title; a truthy non-string path raises |
| JellyfinScraperFacts.RecordsAppend | resources/lib/scrapers/jellyfin.py:54-111 | records come out in item order: the records of `a + b` are those of `a` followed by those of `b` |
| JellyfinScraperFacts.RecordsAtMostOnePerItem | resources/lib/scrapers/jellyfin.py:54-114 | there are never more records than items |
| JellyfinScraperFacts.RecordsCount | resources/lib/scrapers/jellyfin.py:54-114 | there is one record per item exactly when no item is skipped |
| JellyfinScraperFacts.RecordsComeFromItems | resources/lib/scrapers/jellyfin.py:54-111 | every record is the record of one of the items |
| JellyfinScraperFacts.KeptItemsGiveRecords | resources/lib/scrapers/jellyfin.py:54-114 | every item that is not skipped contributes its record, so a raising item only loses its own |
| JellyfinScraperFacts.RecordsStreamFromServer | resources/lib/scrapers/jellyfin.py:76-108 | every record has `id == url_dl == stream_url(jellyfin_id)`, the provider `jellyfin` in `source`, `debrid`, `scrape_provider` and `cache_type`, `direct` and `direct_debrid_link` true, `downloads` false, `folder_id` empty; with the filter on its name passed the title check |
| JellyfinScraperFacts.RecordsIgnoreTitleCheckWhenUnfiltered | resources/lib/scrapers/jellyfin.py:67-74 | with the filter off, the records do not depend on the title check at all |
| JellyfinScraperFacts.FilterKeepsPassingRecords | resources/lib/scrapers/jellyfin.py:66-74 | turning the filter on removes exactly the records whose name fails the title check and keeps the rest in order |
| JellyfinScraperFacts.ScrapeOutcomeShape | resources/lib/scrapers/jellyfin.py:19-28 | every call records the media type, season and episode; it ends either with the old `sources` and empty `scrape_results`, or with both holding the same new records |
| JellyfinScraperFacts.ScrapeWithoutQuery | resources/lib/scrapers/jellyfin.py:29-30 | if the alias or title helpers raise, nothing is searched and the old sources are returned |
| JellyfinScraperFacts.ScrapeKeepsSourcesWhenNothingFound | resources/lib/scrapers/jellyfin.py:45-48 | a search that finds nothing returns the old `sources` here, and one that raises is caught by the outer `except` at jellyfin.py:119-124 with the same effect; either way `scrape_results` is empty and the search's requests are sent |
| JellyfinScraperFacts.ScrapeBuildsRecordsFromItemsFound | resources/lib/scrapers/jellyfin.py:50-116 | a search that finds items makes both `sources` and `scrape_results` the records built from them, in item order, with the client session as the search left it |
| JellyfinScraperFacts.ScrapeWithoutCredentialsKeepsSources | resources/lib/scrapers/jellyfin.py:37-48 | when authentication fails, the search returns `[]` and the old sources stay |
| JellyfinScraperFacts.ScrapeShowTitleFallsBackToTitle | resources/lib/scrapers/jellyfin.py:41-43 | an episode search without a show title behaves as if the title were the show title |

## Left out

- HTTP transport, timeouts, JSON encoding and decoding, and `urllib.parse.urlencode`. The server is a map from structured requests (method, endpoint with its query fields, authorization and token headers) to decoded replies. Query strings are not spelt out.
- The `logger` calls, which have no effect on the state.
- Reply bodies that are not a JSON object holding a list. A body that is a JSON list raises at its `.get` (jellyfin_api.py:100, :130, :140, :175, :185, :208). An `Items` that is `null` raises a `TypeError` at the `len()` of the next log message (:101, :141, :144, :186, :189, :209), before any `extend` or comprehension. Every one of these paths raises and none returns `None`: `_libraries` catches the error and returns `[]` (:103-105), and in the searches it reaches the scraper's outer `except` (jellyfin.py:119-120), which keeps the old sources. A reply here is always either a login reply or a list of items, so these paths are not modelled.
- The settings readers `jellyfin_url`, `jellyfin_username`, `jellyfin_password`, `jellyfin_library_id` and `filter_by_name`. Their values are constructor or method parameters.
- The record's `size` and `size_label` (jellyfin.py:80-88), which are floating-point arithmetic. A `MediaSources[0]` that is not a dictionary raises already at jellyfin.py:58 (`media[0].get("Path")`), and the item loop's `except` skips the item; the model's media sources are always dictionaries.
- The host helpers `get_aliases_titles`, `clean_title`, `normalize`, `clean_file_name`, `check_title`, `get_file_info` and `release_info_format` are arbitrary functions in `Host`. `None` stands for a helper that raised. `get_file_info(release_info_format(…))` is one function. `check_title` answers `Option<bool>`: the model assumes it returns a boolean or raises. The source lets any truthy answer pass (jellyfin.py:72, `if not ok_title`), so a truthy non-boolean answer, which the source accepts, has no counterpart here.
- `internal_results` is recorded in the ghost list `reported` and assumed not to raise.
- `supported_video_extensions` is left out; the scraper computes `extensions` but never reads it.
- Attributes `results` has never set are modelled with their initial values (`Null`, empty lists, no folder query). In Python they do not exist yet.
- Numbers are integers: `Scalar` has no float case. Python's `str(2020.0)` is `"2020.0"`, so a float `year` from the host or a float `ProductionYear` or `IndexNumber` in a reply would compare differently at jellyfin_api.py:147 and :217.
- PyStrings.Lower: folds ASCII letters only, while Python's `str.lower` folds all of Unicode. The sentinels it is compared with are ASCII.
- JellyfinApi.JellyfinAPI.Request: only a missing base URL and a missing reply raise. An unreadable reply body counts as a missing reply.
