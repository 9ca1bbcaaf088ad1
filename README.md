# KsaNOTAM core, modelled in Dafny

KsaNOTAM serves NOTAMs (notices to airmen) for Saudi Arabian airports. An
Express backend keeps the notices in memory. It filters them by type, airport
and radius, counts them for a statistics summary, caches list replies in a TTL
cache, and drops expired notices on a schedule. A React client holds a copy of
the list in a reducer-managed state. It filters the copy again, sorts it and
pages it in a table. A dashboard shows the newest notices, the high-priority
ones, status counters and the busiest airports.

The model has one module per source file:

| module | file | source |
|---|---|---|
| `Caching` | `cache.dfy` | `utils/cache.js` |
| `Service` | `notam_service.dfy` | `services/notamService.js` |
| `CronService` | `cron_service.dfy` | `services/cronService.js` (the cleanup job) |
| `Routes` | `notam_routes.dfy` | `routes/notamRoutes.js` (`GET /` and `GET /:id`) |
| `NotamContext` | `notam_context.dfy` | `client/src/context/NotamContext.js` |
| `NotamList` | `notam_list.dfy` | `client/src/components/NotamList.js` |
| `Dashboard` | `dashboard.dfy` | `client/src/components/Dashboard.js` |

Shared modules:
- `Notams` (`notams.dfy`): the notice record and the filter predicates that server and client share.
- `Seqs` (`seqs.dfy`): JavaScript's `filter`, `map`, `slice` and its stable `sort`, on sequences.
- `Text` (`text.dfy`): ASCII case folding, `includes` and the string order of `<`.
- `Wrappers` (`wrappers.dfy`): `Option`.

Modelling conventions:
- Stateful objects are classes with the source's fields:
  - the cache (`Caching.Cache`, a key order plus a map of entries);
  - the service (`Service.NotamService`, the notice list, the last update time and the data file);
  - the list view's sort and page state (`NotamList.ListView`).
- The dashboard's in-place `sort` is an insertion sort on an `array`.
- Everything else is functions on values.
- An absent or `undefined` string is `""`; both are falsy in JavaScript. (The list sort is the one place where the two differ; see "## Left out".)
- Coordinates are `Option<real>`. A coordinate is falsy when absent or `0`.
- Times are integer milliseconds. The clock reading `now` is a parameter.
- The Haversine distance and `parseFloat` are function parameters of type `Distance` and `NumberParser`.
- The file write of `saveToCache` is a boolean parameter saying whether it succeeds. The file itself is the ghost field `saved`.
- Count dictionaries (`byType`, `byAirport`, …) are association lists in insertion order.

Two behaviours of the code may surprise a caller; the model follows the code:
- `saveToCache` catches and logs a failed write (`services/notamService.js:266-268`). After a refresh or a cleanup whose write fails, memory holds the new list and the file keeps the old one. `Service.NotamService.RefreshNotamData` and `CronService.CleanupExpiredNotams` state exactly that.
- The route bypasses the cache for any truthy `refresh` value, not only `true` (`routes/notamRoutes.js:15`).

## Model

| member | source | states |
|---|---|---|
| `Caching.Cache.constructor` | utils/cache.js:2-4 | A new cache is empty and valid. |
| `Caching.Cache.Set` | utils/cache.js:6-12 | Stores `(value, now + ttl·1000)` under `key`, overwriting any entry. A new key goes last in key order; an existing key keeps its place. The default TTL is 3600 s. |
| `Caching.LookupAfterStore` | utils/cache.js:6-27 | After `set`, `get` answers the value up to and including the expiry instant, and `null` after it. |
| `Caching.LookupOtherKey` | utils/cache.js:6-12 | Storing one key changes no other key's answer. |
| `Caching.Cache.Get` | utils/cache.js:14-27 | Answers the live value or nothing. A key that has expired is deleted from the map and from the key order; otherwise nothing changes. |
| `Caching.Cache.Delete` | utils/cache.js:29-31 | Reports whether the key was present and removes it from entries and key order. |
| `Caching.Cache.Clear` | utils/cache.js:33-35 | Leaves an empty, valid cache. |
| `Caching.Cache.Has` | utils/cache.js:37-47 | True exactly when `get` would find a live value. Deletes an expired entry just as `get` does. |
| `Caching.Cache.Size` | utils/cache.js:49-51 | The number of entries, equal to the number of keys in order. |
| `Caching.Cache.Keys` | utils/cache.js:53-55 | The keys in insertion order: every key once, and only keys that have entries. |
| `Caching.Cache.Cleanup` | utils/cache.js:58-65 | Afterwards the entries are exactly the live ones. The key order is the old order without the expired keys. |
| `Caching.Cache.GetStats` | utils/cache.js:68-86 | `total` is the entry count, `active` the live-entry count, and `active + expired == total`. Nothing changes. |
| `Caching.Cache.LiveKeysCount` | utils/cache.js:58-65 | The keys `cleanup` keeps are as many as the live entries. |
| `Caching.OneSecondEntry` | utils/cache.js:6-27 | A 1-second entry is returned at once and at its expiry instant. One millisecond later `get` returns nothing and `has` is false. |
| `Notams.ByType` | services/notamService.js:41-45 | The type filter stage, `Filter` with `TypeMatches`; what it keeps is stated by `Notams.ByTypeExactly`. |
| `Notams.ByTypeExactly` | services/notamService.js:41-45 | The type filter keeps, in order, exactly the notices with a type whose lower-cased form contains the lower-cased query, each as many times as the list holds it. |
| `Notams.ByAirport` | services/notamService.js:89-94 | `getNotamsByAirport` on a list, `Filter` with `AirportMatches`; what it keeps is stated by `Notams.ByAirportExactly`. |
| `Notams.ByAirportExactly` | services/notamService.js:89-94 | The airport filter keeps, in order, exactly the notices with an airport equal to `icao` up to case, each as many times as the list holds it. |
| `Notams.ByRadius` | services/notamService.js:97-104 | `getNotamsByRadius` on a list, `Filter` with `WithinRadius`; what it keeps is stated by `Notams.ByRadiusExactly`. |
| `Notams.ByRadiusExactly` | services/notamService.js:97-104 | The radius filter keeps, in order, exactly the notices with two non-zero coordinates within `radius` of the centre, each as many times as the list holds it. |
| `Notams.Category` | services/notamService.js:229-238 | Each of the five type codes maps to its category. Every other type maps to `General`. |
| `Notams.EmptyAirportMatchesNothing` | services/notamService.js:89-94 | An empty ICAO code matches no notice: a notice's airport must be truthy. |
| `Service.NotamService.constructor` | services/notamService.js:7-12 | A new service holds no notices, no update time and no file. |
| `Service.NotamService.GetKSANotams` | services/notamService.js:38-75 | The reply lists `Selection`, the notices passing each given filter in turn. It also carries their count, the last update time and the filters it was given. |
| `Service.SelectionSpec` | services/notamService.js:38-68 | The selection is a subsequence of the data. It holds exactly the notices passing every given filter, each as many times as the data holds it. |
| `Service.NoFiltersSelectsAll` | services/notamService.js:31-38 | With no filters the reply lists every notice, in order. |
| `Service.TypeThenAirport` | services/notamService.js:41-52 | Filtering by type and then by airport gives the two-filter selection. |
| `Service.AirportThenType` | services/notamService.js:41-52 | The type and airport filters commute. |
| `Service.ByAirportIsAirportQuery` | services/notamService.js:48-52 | `getNotamsByAirport(icao)` answers what the list query with only the airport filter answers. An empty code answers nothing. |
| `Service.ByRadiusIsRadiusQuery` | services/notamService.js:55-67 | `getNotamsByRadius` answers what the list query with radius, latitude and longitude answers. |
| `Service.RadiusNeedsCentre` | services/notamService.js:55 | A radius without a centre filters nothing. |
| `Service.FindById` | services/notamService.js:83-86 | Nothing exactly when no notice has the id; otherwise the first notice with it. |
| `Service.Bump` | services/notamService.js:286 | `counts[k] = (counts[k] \|\| 0) + 1` raises `k`'s count by one and no other count. It adds a key only for `k` and keeps each key once. |
| `Service.Tally` | services/notamService.js:284-296 | Counting a list gives each key its number of occurrences. The counts sum to the list's length, and every key is one of the list's values. |
| `Service.TallyStep` | services/notamService.js:284-296 | Counting one more notice is one `Bump` of the counts so far. |
| `Service.NotamService.GetNotamStats` | services/notamService.js:272-299 | Each of the four dictionaries is the tally of its field over all notices, and each sums to `total`. Nothing changes. |
| `Service.NotamService.SaveToCache` | services/notamService.js:254-269 | The file then holds the notices, the update time and the count, or is unchanged when the write fails. Memory is untouched. |
| `Service.NotamService.RefreshNotamData` | services/notamService.js:123-146 | The notices become the API notices followed by the manual ones. The update time becomes `now`, and they are returned and saved. |
| `CronService.UnexpiredExactly` | services/cronService.js:64-67 | Kept notices end after `now`; dropped ones end at or before it. |
| `CronService.UnexpiredIsSubsequence` | services/cronService.js:64-67 | Cleanup keeps notices in their order. |
| `CronService.UnexpiredIdempotent` | services/cronService.js:64-67 | A second cleanup at the same time removes nothing. |
| `CronService.UnexpiredLater` | services/cronService.js:64-67 | A cleanup at `t1` and then at a later `t2` is one cleanup at `t2`. |
| `CronService.CleanupExpiredNotams` | services/cronService.js:59-78 | The service keeps exactly the unexpired notices, in order, and keeps its update time. The file is written as `saveToCache` writes it. The reported count is the number removed. |
| `Routes.CacheKeyAsWritten` | routes/notamRoutes.js:12 | The key as written. For the collision it causes, see Findings. |
| `Routes.AllCollidesWithAbsent` | routes/notamRoutes.js:12 | As written, `type=all` and no type give the same key. |
| `Routes.UnderscoreCollides` | routes/notamRoutes.js:12 | As written, `type=a_b&airport=c` and `type=a&airport=b_c` give the same key. |
| `Routes.CacheKey` | routes/notamRoutes.js:12 | The corrected key: the three query values, each escaped, after `notams_`. Its partners are `Routes.ParseCacheKey` and `Routes.CacheKeyInjective`. |
| `Routes.Escape` | routes/notamRoutes.js:12 | An escaped query value contains no separator. |
| `Routes.ParseCacheKey` | routes/notamRoutes.js:12 | The corrected key decodes back to its three query values. |
| `Routes.CacheKeyInjective` | routes/notamRoutes.js:12 | Corrected keys are equal exactly when their three query values are. |
| `Routes.RouteNeverFiltersByRadius` | routes/notamRoutes.js:9-19 | The route passes no centre, so its radius value never filters. |
| `Routes.Expected` | routes/notamRoutes.js:19 | A reference definition, not an operation of the source: the reply `Service.NotamService.GetKSANotams` specifies for the route's filters. The route contracts state their replies against it. |
| `Routes.Respond` | routes/notamRoutes.js:12-24 | On a live entry with no `refresh`, returns it and changes nothing. Otherwise it returns the service reply and stores it for 900 s; the key order follows `get` then `set`. |
| `Routes.ListNotamsAsWritten` | routes/notamRoutes.js:7-29 | `GET /` with the key as written: the cached reply on a live hit without `refresh`, else the service reply stored for 900 s, with the key order as `Routes.Respond` states it. |
| `Routes.ListNotams` | routes/notamRoutes.js:7-29 | `GET /` with the corrected key, with entries and key order as `Routes.Respond` states them. If the cache held only replies that answer their own key's query, the reply is the service's answer to this query, and the cache stays that way. |
| `Routes.NotamByIdReply` | routes/notamRoutes.js:32-43 | 404 `NOTAM not found` exactly when no notice has the id; otherwise a notice with that id. |
| `Routes.TypeAllAsWritten` | routes/notamRoutes.js:12-22 | After `GET /`, a `GET /?type=all` answers with the cached full list, though the type filter `all` keeps nothing. |
| `Routes.TypeAllFirstAsWritten` | routes/notamRoutes.js:12-22 | After `GET /?type=all`, a plain `GET /` answers with that empty reply. |
| `Routes.TypeAll` | routes/notamRoutes.js:12-22 | With the corrected key, the same two requests get the answers to their own queries. |
| `Routes.TypeAllKeepsNoRunway` | services/notamService.js:41-45 | The type filter `all` does not keep a `RWY` notice. |
| `NotamContext.InitialStateIsEmpty` | client/src/context/NotamContext.js:7-20 | `initialState`: no notices, not loading, no error, empty filters, nothing selected, no stats or update time; its filtered list is empty, and `CLEAR_FILTERS` restores its filters. |
| `NotamContext.Merge` | client/src/context/NotamContext.js:39-40 | `{ ...filters, ...payload }`: each filter the patch names takes its value; the others stay. |
| `NotamContext.Reduce` | client/src/context/NotamContext.js:22-57 | For each state field, which actions change it and to what. Unknown actions return the state unchanged. |
| `NotamContext.GetFilteredNotams` | client/src/context/NotamContext.js:132-160 | `getFilteredNotams()`: the held notices through the type, airport, status and priority stages in turn, each only when its filter is set. Stated by the two lemmas below. |
| `NotamContext.GetFilteredNotamsSelects` | client/src/context/NotamContext.js:132-160 | The four optional client filters in turn keep the notices passing all of them. |
| `NotamContext.GetFilteredNotamsExactly` | client/src/context/NotamContext.js:132-160 | The filtered list is a subsequence of the held notices and holds exactly those passing every filter, each as many times as the state holds it. |
| `NotamContext.ClearFiltersShowsAll` | client/src/context/NotamContext.js:42-43 | After `CLEAR_FILTERS` the filtered list is every held notice. |
| `NotamContext.ClientAgreesWithServer` | client/src/context/NotamContext.js:132-146 | With no status or priority filter, the client's filters give the list the server's query gives. |
| `NotamContext.GetNotamsByAirport` | client/src/context/NotamContext.js:163-167 | `getNotamsByAirport(icao)`: `Notams.ByAirport` over the held notices, whatever filters are set. |
| `NotamContext.GetNotamsByRadius` | client/src/context/NotamContext.js:170-177 | `getNotamsByRadius(lat, lng, radius)`: `Notams.ByRadius` over the held notices, whatever filters are set; what it keeps is stated by `Notams.ByRadiusExactly`. |
| `NotamContext.ByAirportIsAirportFilter` | client/src/context/NotamContext.js:163-167 | `getNotamsByAirport(icao)` is the filtered list with only the airport filter set. |
| `NotamList.PrecedesIsStrictWeakOrder` | client/src/components/NotamList.js:68-80 | The table's comparator is a strict weak order for every column and direction, as `sort` requires. |
| `NotamList.SortedNotams` | client/src/components/NotamList.js:68-80 | The sorted table is a permutation of the list in which no row goes before a row above it. |
| `NotamList.SortedNotamsStable` | client/src/components/NotamList.js:68-80 | Rows that compare equal keep their order. |
| `NotamList.NewestFirstOrder` | client/src/components/NotamList.js:9-10 | In the initial order (`created`, descending) creation times never increase down the table. |
| `NotamList.AscendingText` | client/src/components/NotamList.js:77-78 | Ascending by a text column, no row's value is smaller than the one above it. |
| `NotamList.HandleSortStep` | client/src/components/NotamList.js:59-66 | Clicking the sorted column flips the direction. Clicking another column sorts by it, ascending. |
| `NotamList.ListView.constructor` | client/src/components/NotamList.js:9-11 | Starts at `created`, descending, on page 1. |
| `NotamList.ListView.HandleSort` | client/src/components/NotamList.js:59-66 | Updates column and direction as `HandleSortStep` says; the page is unchanged. |
| `NotamList.TotalPages` | client/src/components/NotamList.js:82 | `ceil(n / 20)`: zero only for no rows; otherwise the least page count that holds `n` rows. |
| `NotamList.PageItems` | client/src/components/NotamList.js:83-85 | At most 20 rows, the slice from `(page-1)·20` to `page·20`. Never empty for a page in range. |
| `NotamList.PagesPartition` | client/src/components/NotamList.js:82-85 | In order, the pages concatenate to the whole list. |
| `NotamList.PreviousPage` | client/src/components/NotamList.js:208 | The Previous button's target, `Math.max(1, currentPage - 1)`; its range is `NotamList.PreviousNextStayInRange`. |
| `NotamList.NextPage` | client/src/components/NotamList.js:215 | The Next button's target, `Math.min(totalPages, currentPage + 1)`; its range is `NotamList.PreviousNextStayInRange`. |
| `NotamList.PreviousNextStayInRange` | client/src/components/NotamList.js:208-215 | Previous and Next move one page and stop at the first and last pages. |
| `NotamList.ListView.Previous` | client/src/components/NotamList.js:208 | `Math.max(1, currentPage - 1)`. |
| `NotamList.ListView.Next` | client/src/components/NotamList.js:215 | `Math.min(totalPages, currentPage + 1)`. |
| `NotamList.ListView.SelectPage` | client/src/components/NotamList.js:245 | A page button sets the page it shows. |
| `NotamList.PageWindow` | client/src/components/NotamList.js:240-241 | `min(5, totalPages)` consecutive pages, all in range. An in-range current page is among them. |
| `NotamList.PageWindowHoldsNeighbours` | client/src/components/NotamList.js:240-241 | The pages Previous and Next lead to have buttons. |
| `NotamList.ShowingRange` | client/src/components/NotamList.js:225-226 | As written, the "Showing a to b" line: `startIndex + 1` to `min(endIndex, n)` for the kept page, in range or not. |
| `NotamList.StalePageShowsInvertedRange` | client/src/components/NotamList.js:83-85 | As written, page 5 of a 25-row list shows an empty table and "Showing 81 to 25". |
| `NotamList.ShownPage` | client/src/components/NotamList.js:82-85 | The corrected page is always in range and equals the kept page when that is in range. |
| `NotamList.ShowingRangeShown` | client/src/components/NotamList.js:225-226 | For a non-empty list, the corrected range line has `1 <= from <= to <= n`. |
| `NotamList.ShowingRangeCountsRows` | client/src/components/NotamList.js:83-85 | The corrected range line counts exactly the rows of the shown page. |
| `NotamList.ListView.VisibleRows` | client/src/components/NotamList.js:68-85 | The corrected rendering: the rows of the sorted list on the page `NotamList.ShownPage` brings back into range, at most 20, all from the list, and some whenever the list has any. As written the kept page can lie past the end and the table is empty (`NotamList.ShowingRange`, `NotamList.StalePageShowsInvertedRange`). |
| `Dashboard.SortNewestFirst` | client/src/components/Dashboard.js:51 | The in-place sort leaves the array newest first and a permutation of what it held. |
| `Dashboard.FiveNewest` | client/src/components/Dashboard.js:50-52 | The first five of a newest-first list hold the highest creation times. |
| `Dashboard.HighPriorityOfSorted` | client/src/components/Dashboard.js:54 | Filtering the sorted list keeps exactly the `HIGH` notices, newest first. |
| `Dashboard.RecentAndHighPriority` | client/src/components/Dashboard.js:50-54 | `recentNotams` is at most five notices of the filtered list, newest first, and none left out is newer than one kept. `highPriorityNotams` is the list's `HIGH` notices, newest first, because the sort worked in place. |
| `Dashboard.ActiveCount` | client/src/components/Dashboard.js:125 | The Active counter, `notams.filter(n => n.status === 'ACTIVE').length` over all held notices; stated by the two lemmas below. |
| `Dashboard.PendingCount` | client/src/components/Dashboard.js:139 | The Pending counter, the same count for `PENDING`; stated by the two lemmas below. |
| `Dashboard.CountersIgnoreFilters` | client/src/components/Dashboard.js:125-139 | The Active and Pending counters count all held notices, so filters do not change them. |
| `Dashboard.CountersBounds` | client/src/components/Dashboard.js:125-139 | Each counter is at least the filtered list's count, and the two together are at most the notices held. |
| `Dashboard.AirportRanking` | client/src/components/Dashboard.js:174-175 | The airport entries, largest count first, as a permutation. |
| `Dashboard.AirportRankingStable` | client/src/components/Dashboard.js:174-175 | Airports with equal counts keep their dictionary order. |
| `Dashboard.TopAirports` | client/src/components/Dashboard.js:174-176 | At most five entries, counts non-increasing, and no omitted airport has more notices than a shown one. |
| `Dashboard.TopAirportsOfTally` | client/src/components/Dashboard.js:174-176 | Over the service's counts, each top airport is an airport of some notice and has at least one. |

## Left out

- The Haversine formula (`services/notamService.js:107-120`, `client/src/context/NotamContext.js:180-190`) is floating point. The distance is a parameter, so radius results hold for any distance function.
- `parseFloat` and `NaN`: query numbers go through a parser parameter. A `NaN` centre, radius or coordinate is not modelled.
- `loadCachedData` (file read and JSON parsing) and the reloads before `getNotamById`, `getNotamsByAirport`, `getNotamsByRadius`, `getNotamStats` and the empty-store case of `getKSANotams` are file I/O. Every read works on the list in memory.
- `loadKSAAirports`, `generateSampleNOTAMs`, `fetchFromAviationAPI` and `fetchManualNOTAMs` produce sample or empty data with randomness and clocks. Their results are the `fromApi` and `manual` parameters of `RefreshNotamData`.
- `Promise.all`, `async`/`await` and the cron schedule are concurrency and timers. Each operation is one atomic step.
- Express plumbing, the 500 error replies, the client's HTTP calls and toasts, and all rendering are out of scope. So are the colour maps and the bar widths (floating point).
- Case folding and string order cover ASCII only. JavaScript folds all of Unicode and compares UTF-16 code units.
- Count dictionaries keep insertion order. JavaScript puts integer-like keys first, and a missing field counts under the key `undefined`; neither is modelled.
- `Notams.Category`: a type such as `constructor` that names an `Object.prototype` member is treated as unknown.
- Dates are integer timestamps, so an invalid date string (`NaN` comparisons) is not modelled.
- Each request or action uses one clock reading.
- `NotamContext.Merge`: a `SET_FILTERS` payload with keys other than the four filters is not modelled.
- Array-valued query parameters (`?type=a&type=b`) are not modelled.
- `Dashboard.SortNewestFirst`: stability is not stated for the in-place sort. It moves a notice only past strictly older ones.
- `NotamList.SortedNotams`: an absent text field sorts as `""`, so it goes before every non-empty value ascending. In JavaScript `undefined < x` and `x < undefined` are both false, so such a row ties with every row and its place depends on the engine's sort.

## Findings

| source | as written | input that shows it | evidently intended | confidence | as-written member | corrected member |
|---|---|---|---|---|---|---|
| routes/notamRoutes.js:12 | ``notams_${type \|\| 'all'}_${airport \|\| 'all'}_${radius \|\| 'all'}``: an absent value and the value `all` give the same key, and so do values that move an underscore between parts | `GET /` and then `GET /?type=all` against one `RWY` notice: the second request gets the cached full list, though type `all` matches nothing. In the other order, plain `GET /` gets the empty list | one cache key per distinct query | medium, not executed | `Routes.CacheKeyAsWritten`, `Routes.AllCollidesWithAbsent`, `Routes.TypeAllAsWritten`, `Routes.TypeAllFirstAsWritten` | `Routes.CacheKey` with `Routes.ParseCacheKey`, `Routes.CacheKeyInjective`, `Routes.ListNotams`, `Routes.TypeAll` |
| client/src/components/NotamList.js:83-85, 225-226 | `currentPage` is kept when the filtered list shrinks, so `startIndex` can lie past the end | page 5 of an earlier list, then a list of 25 rows: the table is empty, two page buttons show and the line reads "Showing 81 to 25" | the page is brought back into `[1, totalPages]` | medium, not executed | `NotamList.ShowingRange`, `NotamList.StalePageShowsInvertedRange` | `NotamList.ShownPage` with `NotamList.ShowingRangeShown`, `NotamList.ShowingRangeCountsRows`, `NotamList.ListView.VisibleRows` |
