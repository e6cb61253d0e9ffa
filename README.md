# Library seat-availability map: data model

The page shows Korea's public libraries on a map with the live seat counts of
their reading rooms. Its data side, in `script.js`, is what this project models
and proves properties of:

- **Reconciliation.** Two open-data registries are joined: the library
  registry and the real-time reading-room registry.
  - Records whose district code (`stdgCd`) or library identifier (`pblibId`)
    is missing or blank are dropped.
  - Rooms are grouped under the trimmed key `stdgCd_pblibId`.
  - Each valid library gets its group as `readingRooms`.
  - Modules: `Records`, `Reconcile`.
- **Seat-map index.** This maps `stdgCd_pblibId_rdrmId` to a seat-layout
  page (`SeatMap`).
  - It is built from a remote JSON file, with a proxy as the fallback, or is
    `{}`.
  - The silent variant used by the background refresh has no fallback.
  - The lookup discards blank, `"null"` and `"undefined"` URLs.
- **Cache and loading.** This is module `Loader`.
  - `localStorage` entries `opendata_<key>` hold data and a timestamp. They
    are fresh for 300000 ms, and an expired entry is removed when read.
  - `initialize` uses cached data when both namespaces are fresh, then
    refreshes in the background. Otherwise it fetches in the foreground and
    fills the cache.
  - The page's globals and its store are the fields of class `App`.
- **Aggregates.** These are computed over the reconciled list:
  - the nationwide seat statistics and the congestion badge (`Statistics`);
  - the sido buttons and the per-district counts (`Regions`);
  - the name/address search (`Search`).

`JsValues`, `JsStrings`, `JsNumbers` and `Seqs` model the JavaScript
behaviour the code relies on:
- truthiness and `String(x)`;
- `trim`, `split(' ')`, `includes`, `startsWith` and `toLowerCase`;
- `parseInt(x) || 0`;
- `Array.prototype.filter`.

A record field is `Option<string>`, where `None` is a missing property.

The clock (`Date.now()`) and the outcome of every request are parameters. The
requests run one after the other.

Behaviour of the code that is easy to miss:
- Discarding a `"null"`, `"undefined"` or blank seat-map URL happens at
  lookup (script.js:1611), not when the index is built. Such an entry is
  indexed and overwrites earlier ones.
- A cache entry that does not parse is not evicted: `getCachedData` returns
  `null` and leaves it in place (script.js:81-84).
- The primary seat-map source is abandoned not only when the request fails.
  A response that is not `ok`, or a body that does not parse, also sends the
  code to the fallback (script.js:803-806). The fallback does not check `ok`.
- An entry is already stale exactly 300000 ms after it was written
  (`now - timestamp < 300000`, script.js:72).
- The background refresh replaces the library list only with a non-empty
  list. It replaces the seat-map index independently of the library list
  (script.js:196-212).

## Model

| member | source | states |
|---|---|---|
| JsStrings.TrimFacts | script.js:909-910 | `trim` is empty exactly for all-white-space text, and otherwise has no white space at either end |
| JsStrings.TrimIgnoresPadding | script.js:914 | white space around a value does not change its trimmed form |
| JsStrings.TrimIdempotent | script.js:914 | trimming a trimmed value changes nothing |
| JsStrings.Split | script.js:1056 | `split(' ')` yields at least one piece, no piece holds a space, and text without spaces is one piece |
| JsStrings.JoinSplit | script.js:1056 | joining the pieces with spaces gives the address back |
| JsStrings.LowerAsciiIdempotent | script.js:1704-1707 | lower-casing twice equals lower-casing once |
| JsNumbers.ParseIntRoundTrip | script.js:1466-1467 | `parseInt` reads back every integer printed in decimal |
| JsNumbers.SeatCountOfDecimalText | script.js:1466-1467 | a count written as a decimal integer counts at its value |
| JsNumbers.SeatCountWithoutDigits | script.js:1466-1467 | a missing count, or one with no digit after the leading white space and an optional sign ("", "abc", "-", "+x"), counts as 0 (`NaN \|\| 0`) |
| Reconcile.ReconcileLibraries | script.js:908-927 | the processing of `fetchLibraries` yields the reconciled list, or nothing when a response lacks `body.item` |
| Reconcile.GroupRooms | script.js:912-919 | the room map has a key exactly for the trimmed keys of valid rooms, each holding those rooms in input order |
| Reconcile.AllOrNothing | script.js:908-947 | reconciliation fails as a whole exactly when either response lacks its item list; no partial list is made |
| Reconcile.KeepsValidLibraries | script.js:909-927 | the output records are exactly the valid library records, in input order, none dropped for want of rooms |
| Reconcile.AttachesMatchingRooms | script.js:910-925 | a room is in a library's `readingRooms` exactly when it is a valid input room with the library's trimmed key |
| Reconcile.UnmatchedRoomAttachedNowhere | script.js:912-925 | a room whose key matches no valid library appears in no output library |
| Reconcile.RoomsKeepInputOrder | script.js:912-919 | the rooms of a library keep the order of the room response |
| Reconcile.PaddingDoesNotPreventJoin | script.js:914-922 | white space around either identifier does not change the join key |
| Reconcile.JoinKeyInjective | script.js:914 | when district codes have no "_", equal join keys mean equal trimmed identifiers |
| Reconcile.SingleMatchJoins | script.js:908-927 | a valid library and a valid room with the same trimmed key are joined |
| Reconcile.PaddedRoomJoins | script.js:908-927 | a room whose identifiers are a library's padded with white space (" 11 "/" 001 " for "11"/"001") is attached to that library |
| SeatMap.EntryOf | script.js:822-826 | a stored value carries the entry's URL and its names, a falsy name defaulting to '열람실' (reading room) or '도서관' (library); none is empty |
| SeatMap.IndexOf | script.js:816-826 | every indexed value has a non-empty URL and non-empty names |
| SeatMap.BuildIndex | script.js:816-826 | the `forEach` leaves exactly the index of the entries |
| SeatMap.IndexPayload | script.js:817 | a body that is not an array yields `{}` |
| SeatMap.FetchSeatMapIndex | script.js:793-896 | `fetchSeatMapData` assigns the primary's index, else the fallback's, else `{}` |
| SeatMap.FetchSeatMapDataSilent | script.js:956-988 | the silent fetch returns the primary's index, or `null` when the primary fails |
| SeatMap.IndexKeys | script.js:818-821 | a key is indexed iff some entry with all four fields truthy carries it, untrimmed |
| SeatMap.LastWriteWins | script.js:822-826 | the value under a key comes from the last indexable entry with that key |
| SeatMap.FallbackChain | script.js:803-894 | the fallback is used only when the primary fails; both failing gives `{}`; every key comes from the chosen source, never from an earlier index |
| SeatMap.NotOkPrimaryFallsBack | script.js:803-866 | a non-`ok` primary response goes to the fallback even when its body is valid |
| SeatMap.SilentAgreesWithPrimary | script.js:956-988 | the silent fetch yields an index exactly when the primary succeeds, the same one `fetchSeatMapData` builds |
| SeatMap.SeatMapUrl | script.js:1606-1613 | the lookup yields the stored URL iff the untrimmed key is indexed and the URL is not blank, "null" or "undefined" |
| SeatMap.LookupAbsent | script.js:1606-1608 | a room with no indexable entry under its key gets `null` |
| SeatMap.LookupFindsLastRegistration | script.js:1606-1613 | the lookup finds the last registered URL unless it is discarded, and never an empty one |
| SeatMap.PaddingChangesSeatMapKey | script.js:821 | an entry with a padded district code is filed under a key its library does not look up |
| SeatMap.FallbackServesLookups | script.js:853-894 | after a primary failure, lookups are answered from the fallback's entries, or are `null` when it fails too |
| SeatMap.OfferedExactlyWhenFound | script.js:1608-1634 | a room row is marked as having a seat map exactly when the lookup found a URL |
| Statistics.UpdateStatistics | script.js:1455-1475 | the library count is the list length; available and total seats are the sums over every room of every library |
| Statistics.SeatTotalAppend | script.js:1463-1470 | the seat sums of two lists together are the sums of their sums |
| Statistics.RoomlessLibraryAddsNoSeats | script.js:1464 | a library without `readingRooms`, or with none, adds no seats |
| Statistics.DecimalRoomCounts | script.js:1466-1467 | a room with decimal counts adds exactly those numbers |
| Statistics.Classify | script.js:1524-1534 | congested iff `used*100 >= 80*total`, moderate iff `30*total <= used*100 < 80*total`, relaxed otherwise or with no seats |
| Statistics.RateAtLeast | script.js:1525-1531 | the percentage reaches k exactly when `used*100 >= k*total` |
| Statistics.ClassifyMonotone | script.js:1524-1534 | fewer free seats never give a calmer badge |
| Statistics.ClassifyExtremes | script.js:1524-1534 | no free seat is congested; all seats free is relaxed |
| Statistics.RoomlessLibraryRelaxed | script.js:1513-1525 | a library without rooms is relaxed |
| Regions.Count | script.js:1053-1059 | a count never exceeds the number of libraries |
| Regions.Tally | script.js:1053-1059 | the count map holds exactly the positive counts per first (or second) address token |
| Regions.GenerateCityButtons | script.js:1047-1072 | the buttons follow the 17-sido order, skip sidos without libraries and carry the labels the code computes from its 9-entry short-name table (`CityLabelAsWritten`) |
| Regions.CityButtonsListed | script.js:1047-1072 | a button exists iff its sido is one of the 17 with a positive count; it carries that count and the sido's label |
| Regions.AsWrittenLabelsCollide | script.js:1068-1072 | 경상북도 and 경상남도 both get the label "경상" |
| Regions.AsWrittenButtonsCollide | script.js:1047-1072 | when both Gyeongsang provinces have libraries, the page shows two buttons labelled "경상" |
| Regions.LabelsListed | script.js:1120-1125 | each of the 17 sidos is labelled with its short name |
| Regions.CityLabelsDistinct | script.js:1120-1125 | with the 17 short names, every sido has its own label |
| Regions.CorrectedButtonsDistinct | script.js:1120-1125 | with the 17 short names, buttons for different sidos never share a label |
| Regions.ShowDistrictButtons | script.js:1130-1152 | "전체" counts the libraries whose address starts with the sido; the district counts are per second token of those |
| Regions.DistrictButtonMatchesList | script.js:1135-1195 | a district button's count is the number of libraries its click shows |
| Regions.SidoCountWithinDistrictView | script.js:1053-1132 | a sido button's count never exceeds that sido's "전체" count |
| Search.SearchLibraries | script.js:1703-1712 | throws iff some library lacks name or address; otherwise keeps exactly the libraries whose name or address includes the term, case-insensitively |
| Search.SearchIsFilter | script.js:1705-1709 | the search keeps the libraries in list order |
| Search.EmptyTermKeepsAll | script.js:1704-1709 | an empty term keeps every library |
| Search.TermCaseIgnored | script.js:1704 | the ASCII case of the term makes no difference |
| Loader.StorageKey | script.js:57-66 | the storage key is `opendata_` followed by the namespace |
| Loader.CachedData | script.js:64-85 | `getCachedData` returns the data iff an entry is stored and `now - timestamp < 300000` |
| Loader.AfterRead | script.js:72-80 | a read keeps each namespace's kind of data |
| Loader.AfterWrite | script.js:51-62 | a write keeps each namespace's kind of data |
| Loader.Refreshed | script.js:187-216 | the background refresh keeps each namespace's kind of data |
| Loader.Initialized | script.js:2147-2173 | start-up keeps each namespace's kind of data |
| Loader.App.constructor | script.js:3-5 | the page starts with no libraries and an empty index over the stored entries |
| Loader.App.SetCachedData | script.js:51-62 | stores `{data, timestamp: now}` under `opendata_<key>` and changes nothing else |
| Loader.App.GetCachedData | script.js:64-85 | returns `CachedData` and removes an expired entry |
| Loader.App.FetchSeatMapData | script.js:793-896 | `seatMapData` becomes the resolved index, whatever it was |
| Loader.App.FetchLibraries | script.js:898-953 | succeeds iff reconciliation does, and only then replaces `allLibraries` |
| Loader.App.RefreshDataInBackground | script.js:187-216 | the state becomes `Refreshed` of the old state |
| Loader.App.Initialize | script.js:2147-2180 | the state and path are those of `Initialized` |
| Loader.ReadAfterWrite | script.js:51-80 | written data reads back for less than five minutes; after that the first read removes it |
| Loader.FreshnessBoundary | script.js:49-72 | an entry is fresh at T+299999 and gone at T+300000 |
| Loader.ReadRemovesOnlyExpired | script.js:72-84 | a read removes only its own expired entry; an unparsable entry stays |
| Loader.ReadsIndependent | script.js:64-85 | reading one namespace does not change what the other reads |
| Loader.CachedPathIffBothFresh | script.js:2147-2150 | the cached path is taken exactly when both namespaces are fresh |
| Loader.ForegroundPath | script.js:2164-2173 | the index is always rebuilt; the libraries and both cache entries are written only when the library fetch succeeds, and otherwise stay |
| Loader.RefreshReplacesOnlyOnSuccess | script.js:196-215 | the refresh replaces the list (if non-empty) and the index (if fetched), caching each; when both fail, nothing changes |
| Loader.ReloadWithinWindowUsesCache | script.js:2147-2173 | a reload within five minutes of a successful foreground load uses the cache, holding what that load produced |

## Left out

- Rendering is left out, because it is presentation with no data logic. This covers the map widget, markers, cards, info-window markup, city and district buttons as DOM, modals, overlays, the sidebar and the drag gestures.
- The info-window status label (script.js:1587-1593) is left out: it compares `toFixed` strings to numbers.
- The city display name made by a regular-expression replace (script.js:1126) is left out.
- The debug search for similar keys (script.js:1624-1630) only logs, so it is left out.
- The proxy endpoints under `api/` are left out: they pass requests through. `api/` is not part of this model.
- Concurrency is not modelled.
  - `Promise.all` and the fire-and-forget refresh are sequential steps.
  - On the cached path the refresh is applied right after the cached data is installed.
  - On the foreground path the seat-map fetch is applied before the library fetch. It never throws, so its effect is the same either way.
- One clock value serves each step: the foreground writes of `initialize` are stamped with the time of its reads, and the two writes of a refresh share one time stamp.
- Loader.Initialized: a foreground cache write carries the time of the start-up read, not the later `Date.now()` taken after the fetch returns (script.js:55, 2166-2173). Such an entry may therefore expire slightly earlier than in the code.
- `setCachedData` failing (a full storage quota, a serialisation error) is not modelled. Writes always succeed.
- The JSON round trip of cached data is taken as the identity. A stored value of the wrong shape is excluded by `WellTyped` rather than modelled.
- Record fields are text or missing. JSON numbers, booleans and `null` in fields are not modelled, including a numeric `0`, which would be falsy.
- `null` items inside a response array are not modelled. They would throw inside `forEach`.
- Prototype property names (`__proto__`) as seat-map keys are not modelled.
- The `localeCompare` ordering of district buttons (script.js:1180) is left out. The district counts are an unordered map.
- `initializeMap` failing before any data is loaded is left out.
- The mobile district modal (script.js:1280-1420) repeats the counting of `showDistrictButtons`. It is covered by the same members and not modelled separately.
- The earlier `performSearch` (script.js:768) and `initializeSidebarForScreenSize` (script.js:721) are left out. Later declarations replace them.
- JsStrings.LowerAscii: lower-cases ASCII letters only. The Unicode case mapping of `toLowerCase` is not modelled, and Korean text has no case.
- Search.SearchLibraries: matches case-insensitively for ASCII letters only, as `LowerAscii` does.
- JsNumbers.ParseInt: yields exact integers. JavaScript numbers are doubles and lose precision beyond 2^53.
- Statistics.UpdateStatistics: sums are unbounded integers rather than doubles.
- Statistics.Classify: the rate is an exact rational. Double rounding at the 30% and 80% thresholds is not modelled.

## Findings

| source | as written | input that shows it | evidently intended | confidence | as-written member | corrected member |
|---|---|---|---|---|---|---|
| script.js:1068-1072 | a sido button is labelled from a 9-entry short-name table, else with the first two characters of the sido | the sidos 경상북도 and 경상남도: both buttons read "경상" (and 충청남도 reads "충청") | the 17 short names the same file uses for the district view (script.js:1120-1125), which give 경북, 경남 and 충남 | medium; not executed | Regions.AsWrittenButtonsCollide | Regions.CorrectedButtonsDistinct |

`Regions.GenerateCityButtons` labels its buttons as written, with
`Regions.CityLabelAsWritten`. `Regions.CityButtonsFor` takes the labelling as
a parameter; with the corrected label `Regions.CityLabel` the buttons of
different sidos are told apart (`Regions.CorrectedButtonsDistinct`).
