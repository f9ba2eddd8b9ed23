# mon-site-web: the API core and the crime-statistics transform, in Dafny

The site's serverless `api/` folder gathers posts about a police union from
upstream social and news services. It also answers with the next trains
from one RER station. The front end holds one real data transform: it turns
crime-statistics records from the French open-data portal into per-indicator
statistics. This project models that logic as Dafny values, functions and
classes, and proves what the code promises about it:

- **`Registry`** (`api/config/sources.js`). The static source catalogue, the
  lookup by key, and `getActiveSources`. That function filters to the
  enabled sources, sorts them by ascending priority, and flattens each entry
  so that the config's own `name` wins over the key.
- **`Auth`** (`api/middleware/auth.js`):
  - key extraction in a fixed order (header, then bearer token, then query);
  - the first matching role;
  - the comparison of keys;
  - the per-key hourly counter, held in the `Authenticator` class. It
    increments before it checks, so a denied call still uses a slot;
  - the `requirePermission` gate.
- **`BaseSource`** (`api/lib/base-source.js`):
  - the adapter class with its hour-bucket limiter, which checks before it
    increments;
  - output normalisation in `validateData`;
  - authentication headers;
  - the order of the steps inside `getData`.
- **`Twitter`** (`api/sources/twitter.js`):
  - title truncation to eight space-separated pieces;
  - `#word` and `@word` extraction;
  - the mapping from payload to items;
  - the query parameters sent upstream;
  - the error paths of `fetchRawData`.
- **`Aggregator`** (`api/aggregator.js`):
  - source selection;
  - dispatch through the source registry;
  - fail-soft collection of results;
  - the merge, the stable newest-first sort and the limit;
  - the summary and per-source statistics;
  - the 401 and 400 answers of the handler.
- **`Transit`** (`api/Passage_Palaiseau.js`). The missing-key guard, the
  loop that keeps upcoming visits to two destinations, the whole minutes to
  wait, and the four earliest passages.
- **`CrimeStats`** (`src/pages/ApiData.tsx`):
  - `processCrimeData`: grouping by indicator and year, last and previous
    year, the evolution ratio, the distinct years, the period text and the
    metadata;
  - the split of the geocoder's context string.
- Helpers that model the JavaScript built-ins the core relies on:
  - **`Strings`**: `split`, `join`, `trim`, `parseInt`, the first-occurrence
    `replace`, number-to-text, and the default string order of `sort()`;
  - **`Dicts`**: a JS object as an insertion-ordered list of key/value pairs;
  - **`Sorting`**: `Array.prototype.sort` as a stable insertion sort by an
    integer key, and `slice(0, end)`;
  - **`Common`**: `Option`, `Result`, `Outcome`.

Where the code's state changes in place, the model keeps that form:
- `Auth.Authenticator` holds the `rateLimits` table.
- `BaseSource.Source` holds the `rateLimiter` buckets.
- The loops in `validateApiKey`, `formatAggregatedResponse`,
  `executeSourcesParallel`, the transit filter and `processCrimeData` are
  `while`/`for` loops. Each is proved equal to a specification function, and
  the properties are proved about that function.

Clocks and network replies are parameters:
- `now` is an integer number of milliseconds;
- an upstream service is a function from the request to its reply;
- `process.env` is a map;
- the SHA-256 key hash is a function given to the authenticator.

The catalogue is reproduced as written. Its entries carry the display
names `'Twitter/X'` and `'NewsAPI'`. Source selection filters on those
names, and `SOURCE_REGISTRY` is keyed by `'twitter'`. So, with the shipped
catalogue, no source is ever dispatched:
- `sources=twitter` is answered with 400 (`Aggregator.StaticTwitterRequestRejected`);
- the default `sources=all` answers 200 with two failed sources and no items
  (`Aggregator.StaticSourcesNeverDispatch`, `Aggregator.StaticAllSourcesResponse`).

A source whose name is `twitter` goes through the whole Twitter path:
- `Aggregator.DispatchRegistered` gives its result for a missing catalogue
  entry, a refused rate check, a failed fetch and a delivered payload;
- `Aggregator.MixedResponse` gives the response to one such source that
  delivers, followed by one unregistered source.

## Model

| member | source | states |
|---|---|---|
| Registry.GetSourceConfig | api/config/sources.js:67-73 | the lookup succeeds exactly when the key is in the catalogue, disabled entries included, and returns that key's entry; otherwise the error is "Source configuration not found: " followed by the key |
| Registry.Enabled | api/config/sources.js:77 | an entry is kept exactly when it is in the catalogue and enabled, and no more entries are kept than the catalogue holds; order and multiplicity are `Registry.EnabledAppend` and `Registry.EnabledOne` |
| Registry.EnabledAppend | api/config/sources.js:77 | filtering a concatenation concatenates the filterings, so each entry keeps its place and its multiplicity |
| Registry.EnabledOne | api/config/sources.js:77 | one entry is kept exactly when it is enabled |
| Registry.ActiveEntriesFacts | api/config/sources.js:77-78 | the filtered and sorted entries number the enabled ones, are all enabled, and come in non-decreasing priority |
| Registry.EqualPrioritiesKeepCatalogueOrder | api/config/sources.js:77-78 | enabled entries of equal priority keep their catalogue order, since the sort is stable |
| Registry.ActiveSources | api/config/sources.js:75-80 | one active source per enabled entry, no more than the catalogue holds, all enabled, in non-decreasing priority; which entries, and their order at equal priority, are `Registry.ActiveSourcesAreTheEnabledEntries` and `Registry.EqualPrioritiesKeepCatalogueOrder` |
| Registry.Flatten | api/config/sources.js:79 | one catalogue entry as an active source, named by its display name when it has one, else by its key; `Registry.DisplayNameWins` states this for every active source |
| Registry.ActiveSourcesAreTheEnabledEntries | api/config/sources.js:75-80 | the sorted entries are a permutation of the enabled entries (each enabled entry once per occurrence, by `Registry.EnabledAppend` and `Registry.EnabledOne`), and each active source is the flattening of the entry at its position |
| Registry.DisplayNameWins | api/config/sources.js:79 | an active source is named by the config's own `name` when it has one, and by the catalogue key otherwise |
| Registry.StaticActiveSources | api/config/sources.js:2-58 | the shipped catalogue gives exactly `Twitter/X` then `NewsAPI`, with their configs |
| Registry.StaticEntries | api/config/sources.js:3-57 | the shipped catalogue has two enabled entries in priority order, named `Twitter/X` and `NewsAPI` once flattened |
| Registry.TwoEnabledInOrder | api/config/sources.js:76-79 | a catalogue of two enabled entries already in priority order yields their flattenings in that order |
| Auth.FirstTruthy | api/middleware/auth.js:20-22 | the chain of `\|\|` yields the first non-empty candidate, and nothing when every candidate is missing or empty |
| Auth.ExtractKey | api/middleware/auth.js:20-22 | the key taken from the request: the first truthy of the header, the bearer value and the query parameter; characterised by `Auth.DirectKeyWins`, `Auth.BearerKeyExtracted` and `Auth.QueryKeyLast` |
| Auth.BearerValue | api/middleware/auth.js:21 | the `authorization` header with its first `Bearer ` removed, nothing when the header is absent; `Auth.BearerKeyExtracted` proves that a `Bearer <token>` header yields the token |
| Auth.DirectKeyWins | api/middleware/auth.js:20 | a non-empty `x-api-key` header is the key, whatever else the request carries |
| Auth.BearerKeyExtracted | api/middleware/auth.js:21 | without that header, `authorization: Bearer <token>` gives the token |
| Auth.QueryKeyLast | api/middleware/auth.js:22 | when neither header gives a key, the key is the `api_key` query parameter if it is non-empty, and nothing otherwise |
| Auth.TimingSafeEqual | api/middleware/auth.js:83 | on equal-length keys the constant-time comparison is true exactly when they are equal |
| Auth.SecureCompare | api/middleware/auth.js:75-84 | true exactly when the first key is non-empty and equal to the second; an empty key or a length mismatch gives false |
| Auth.ValidateApiKey | api/middleware/auth.js:66-73 | the loop returns the first role in admin, internal, readonly order whose secret is set and matches |
| Auth.FirstMatchMeaning | api/middleware/auth.js:66-73 | a returned role's secret equals the key and no earlier role's does; nothing is returned exactly when the key is empty or matches no secret |
| Auth.FirstMatch | api/middleware/auth.js:66-73 | the role the loop returns, scanning the roles in order; characterised by `Auth.FirstMatchMeaning` and computed by `Auth.ValidateApiKey` |
| Auth.Authenticator.constructor | api/middleware/auth.js:4-16 | a fresh authenticator holds the given secrets and hash and an empty counter table |
| Auth.Authenticator.CheckRateLimit | api/middleware/auth.js:86-122 | the key's counter is created at `now`, reset after more than an hour, then incremented and written back; the decision allows the call when the new count is at most the role's limit |
| Auth.Tick | api/middleware/auth.js:97-111 | one key's counter after a call: created, reset after more than an hour, then incremented; characterised by `Auth.ReplayWithinWindow` and `Auth.WindowResetAllowsAgain` |
| Auth.Decide | api/middleware/auth.js:113-121 | the rate decision: allowed exactly when the count is within the role's limit, with that limit and message; used by `Auth.CallsWithinOneWindow` |
| Auth.MaxRequests | api/middleware/auth.js:89-93 | the hourly limit of a role: 1000 for admin, 500 for internal, 100 for readonly; `Auth.CallsWithinOneWindow` proves that call k+1 in one window is allowed exactly when k+1 is within it |
| Auth.Authenticator.Authenticate | api/middleware/auth.js:18-54 | the result and the new counter table are those of one authentication step from the old table |
| Auth.AuthStep | api/middleware/auth.js:18-54 | one authentication as a function of the counter table: the answer and the new table; characterised by `Auth.MissingKeyRejected`, `Auth.UnknownKeyRejected`, `Auth.AuthenticatedMeaning` and `Auth.OtherCountersUnchanged` |
| Auth.MissingKeyRejected | api/middleware/auth.js:24-30 | without a key the answer is MISSING_API_KEY and the table is unchanged |
| Auth.UnknownKeyRejected | api/middleware/auth.js:32-39 | a key matching no secret gives INVALID_API_KEY and the table is unchanged |
| Auth.AuthenticatedMeaning | api/middleware/auth.js:41-54 | a success carries the role whose secret is the key and exactly that role's permissions; a matching key succeeds exactly when its incremented count is within the role's limit |
| Auth.OtherCountersUnchanged | api/middleware/auth.js:95-111 | every counter except the one for the current key's hash is unchanged |
| Auth.ReplayWithinWindow | api/middleware/auth.js:104-111 | calls inside the counter's window add one each to its count and keep its start |
| Auth.CallsWithinOneWindow | api/middleware/auth.js:97-116 | in one window, from a fresh key, call k+1 has count k+1 and is allowed exactly when k+1 is within the role's limit |
| Auth.WindowResetAllowsAgain | api/middleware/auth.js:106-114 | after more than an hour the counter restarts at one at `now`, and the call is allowed |
| Auth.RequirePermission | api/middleware/auth.js:124-140 | a failure passes unchanged, a success holding the permission passes unchanged, and any other success becomes INSUFFICIENT_PERMISSIONS naming the permission |
| Auth.RequirePermissionGate | api/middleware/auth.js:124-140 | the gate succeeds exactly when the input succeeded and holds the permission; applying it twice is applying it once |
| Auth.PermissionsNested | api/middleware/auth.js:10-14 | every readonly permission is an internal one, and every internal permission an admin one |
| Auth.Permissions | api/middleware/auth.js:10-14 | the permissions granted to each role; `Auth.AuthenticatedMeaning` proves that an authenticated caller gets its role's permissions, and `Auth.PermissionsNested` that the roles' permissions nest |
| BaseSource.ValidateData | api/lib/base-source.js:61-73 | fails with "Invalid data format" exactly when the output is not an object; otherwise echoes the source name, time, items (or none) with their count, and metadata |
| BaseSource.ValidateDataIdempotent | api/lib/base-source.js:61-73 | validating a validated output again gives the same data |
| BaseSource.AuthHeaders | api/lib/base-source.js:76-93 | no scheme or `none` gives no header; otherwise a missing token is the error naming the source; bearer gives `Bearer <token>` and header gives the token, under the scheme's header; any other type gives no header |
| BaseSource.LimiterStep | api/lib/base-source.js:47-58 | the call passes exactly when the current hour's count is below the limit; a pass adds one to that bucket only, and a refusal leaves the buckets unchanged and names the source |
| BaseSource.HourKey | api/lib/base-source.js:49 | the hour bucket of a time, `floor(now / 3600000)`; the limiter counts per bucket (`BaseSource.LimiterStep`) |
| BaseSource.RunLimiter | api/lib/base-source.js:47-58 | a run of rate checks: how many passed and the buckets after them; characterised by `BaseSource.AcceptedInOneHour` |
| BaseSource.AcceptedInOneHour | api/lib/base-source.js:47-58 | of a run of calls in one hour, as many pass as the limit leaves room for, and the bucket rises by exactly that many |
| BaseSource.FreshSourceHourlyBound | api/lib/base-source.js:8 | from the empty limiter of a new source, at most the limit of the calls in one hour pass |
| BaseSource.DataStepOrder | api/lib/base-source.js:22-44 | a full bucket fails before any fetch and uses no slot; a failed fetch after the check has used its slot and its error is passed on |
| BaseSource.DataStep | api/lib/base-source.js:22-44 | `getData` as a function of the buckets: the result and the new buckets; characterised by `BaseSource.DataStepOrder` and computed by `BaseSource.Source.GetData` |
| BaseSource.Source.constructor | api/lib/base-source.js:5-9 | a new source holds its name and config and an empty limiter |
| BaseSource.Source.Create | api/lib/base-source.js:5-9 | construction fails exactly when the catalogue has no entry for the name, with the lookup's error; otherwise it gives a fresh source with that entry and an empty limiter |
| BaseSource.Source.CheckRateLimit | api/lib/base-source.js:47-58 | the outcome and the new buckets are one limiter step from the old buckets at the configured hourly limit |
| BaseSource.Source.GetData | api/lib/base-source.js:22-44 | rate check, fetch, transform and validate run in that order; fetch runs exactly when the check passes, transform exactly when the fetch also succeeded; a result means all four steps ran |
| Twitter.JoinAppend | api/sources/twitter.js:77 | joining two non-empty concatenated lists puts the separator between the two joins |
| Twitter.ExtractTweetTitle | api/sources/twitter.js:74-78 | the title of a tweet; characterised by `Twitter.ShortTextIsItsTitle` and `Twitter.LongTextIsTruncated` |
| Twitter.ShortTextIsItsTitle | api/sources/twitter.js:74-78 | a text of at most eight space-separated pieces is its own title |
| Twitter.LongTextIsTruncated | api/sources/twitter.js:74-78 | a longer text's title is the text cut just before a space followed by "...", and the kept part splits into exactly the first eight pieces |
| Twitter.CutAfterPieces | api/sources/twitter.js:76-77 | re-joining the first pieces of a split text is a prefix of the text followed by a space, and splits back into those pieces |
| Twitter.WordRun | api/sources/twitter.js:82 | the length of the maximal run of word characters at the start of the text |
| Twitter.Tags | api/sources/twitter.js:80-90 | every extracted tag is a non-empty run of word characters |
| Twitter.ExtractHashtags | api/sources/twitter.js:80-84 | the `#` tags of a text without their marker, none for an empty text; characterised by `Twitter.Tags` and `Twitter.HashtagsAndMentionsRoundTrip` |
| Twitter.ExtractMentions | api/sources/twitter.js:86-90 | the `@` tags of a text without their marker, none for an empty text; characterised by `Twitter.Tags` and `Twitter.HashtagsAndMentionsRoundTrip` |
| Twitter.WordRunOfWord | api/sources/twitter.js:82 | the run is the whole word when a non-word character or the end follows |
| Twitter.NoMarkerNoTags | api/sources/twitter.js:82-83 | a text without the marker has no tags |
| Twitter.TagsSkip | api/sources/twitter.js:82 | a character other than the marker contributes no tag |
| Twitter.TagsOfWord | api/sources/twitter.js:82-83 | a marker followed by a word and a space yields that word, then the tags of the rest |
| Twitter.TagsOfTagLine | api/sources/twitter.js:80-90 | writing words with a marker and extracting them gives back the same words in order |
| Twitter.HashtagsAndMentionsRoundTrip | api/sources/twitter.js:80-90 | the hashtags of `#w1 #w2 …` are `w1, w2, …`, and likewise the mentions of `@w1 @w2 …` |
| Twitter.TransformData | api/sources/twitter.js:40-72 | no payload or no tweets gives no items and total 0; otherwise one item per tweet, in order, with id, text, status URL, time, author, title, tags and metrics; the total is the reported count when non-zero, else the item count |
| Twitter.ToItem | api/sources/twitter.js:51-63 | one tweet as a normalised item: its id, title, text, status URL, creation time, author, metrics, hashtags and mentions; `Twitter.TransformData` and `Twitter.TransformThenValidate` state it for every tweet |
| Twitter.TotalResults | api/sources/twitter.js:68 | the reported result count when it is non-zero, else the number of items; stated in `Twitter.TransformData` |
| Twitter.TransformThenValidate | api/sources/twitter.js:40-72 | the transformed output always validates: source `twitter`, one item per tweet, and each URL ends with its item's id |
| Twitter.Present | api/sources/twitter.js:18-22 | appending skips undefined and null values, so no more parameters are sent than were merged |
| Twitter.PresentGet | api/sources/twitter.js:18-22 | a sent parameter is the rendered value of a merged one that is present; a null or missing one is not sent |
| Twitter.MergedParams | api/sources/twitter.js:11-15 | the defaults, then the query, then the options, a later key replacing an earlier one; characterised by `Twitter.RequestParamsLookup` |
| Twitter.RequestParams | api/sources/twitter.js:11-22 | the parameters appended to the URL, in order; characterised by `Twitter.RequestParamsLookup` and `Twitter.PresentGet` |
| Twitter.EffectiveQuery | api/sources/twitter.js:13 | the caller's query when it is non-empty, else the configured queries joined by ` OR `; `Twitter.RequestParamsLookup` proves that it is the `query` parameter unless an option overrides it |
| Twitter.RequestParamsLookup | api/sources/twitter.js:11-22 | each parameter comes from the options first, then the query (or the joined search queries when it is empty), then the defaults; the sent keys are distinct |
| Twitter.MergedTwoDefaults | api/sources/twitter.js:11-15 | two distinct defaults with no options and an empty query merge to those defaults followed by the joined search queries |
| Twitter.StaticMergedParams | api/sources/twitter.js:11-15 | the shipped Twitter config merges to `max_results`, `tweet.fields` and the `OR`-joined queries |
| Twitter.StaticTwitterParams | api/sources/twitter.js:11-22 | the shipped Twitter request sends `max_results=10`, the fields list and the joined queries |
| Twitter.StaticSearchQuery | api/sources/twitter.js:13 | the shipped search queries join to `UNSA Police OR Loïc Walder OR @UNSAPOLICE` |
| Twitter.FetchRawData | api/sources/twitter.js:9-38 | no search endpoint gives "Invalid URL"; a header error is passed on; otherwise the payload is the upstream body exactly when it was delivered, and a non-2xx reply gives "Twitter API error <status>: <text>" |
| Twitter.StaticTwitterAuth | api/lib/base-source.js:85-87 | with its token set, the Twitter scheme sends `Authorization: Bearer <token>` |
| Aggregator.NamedIn | api/aggregator.js:36 | keeps exactly the active sources whose name is listed, no more of them than there are |
| Aggregator.SelectSources | api/aggregator.js:33-36 | `all` selects every active source; any other value selects exactly the active sources named in its comma-separated list |
| Aggregator.NamedInAppend | api/aggregator.js:36 | filtering a concatenation concatenates the filterings, so each source keeps its order and its multiplicity |
| Aggregator.NamedInOne | api/aggregator.js:36 | one source is kept exactly when its name is listed |
| Aggregator.SelectSourcesAppend | api/aggregator.js:33-36 | selecting from a concatenation concatenates the selections |
| Aggregator.SelectSourcesOne | api/aggregator.js:33-36 | one source is selected exactly when the value is `all` or lists its name |
| Aggregator.Names | api/aggregator.js:41 | the names of the sources, in order |
| Aggregator.Dispatch | api/aggregator.js:72-94 | a result carries its source's name; a name missing from the registry fails with "Source class not found: " and the name; a registered name is `Aggregator.DispatchRegistered` |
| Aggregator.DispatchRegistered | api/aggregator.js:72-94 | for `twitter`: a missing catalogue entry fails with the lookup's error, a zero hourly limit fails with the rate error, a failed fetch fails with its error, and a delivered payload succeeds with the validated transform of the payload |
| Aggregator.ExecuteSources | api/aggregator.js:70-99 | the loop gives exactly one result per selected source, in order, each the dispatch of that source alone |
| Aggregator.CountSucceeded | api/aggregator.js:133 | the count of successes is at most the number of results, equals it exactly when all succeeded, and is 0 exactly when all failed |
| Aggregator.CountSucceededAppend | api/aggregator.js:133 | the successes of a concatenation add up |
| Aggregator.CountSucceededOne | api/aggregator.js:133 | one result counts 1 exactly when it succeeded |
| Aggregator.FormatAggregatedResponse | api/aggregator.js:101-140 | the loop and sort build the envelope of the results under the limit |
| Aggregator.Format | api/aggregator.js:101-140 | the envelope: summary, limited items and statistics; characterised by `Aggregator.SummaryCounts`, `Aggregator.ItemsNewestFirst` and `Aggregator.StatsOfLast` |
| Aggregator.MergedItems | api/aggregator.js:106-108 | the items of the successful results, result after result; characterised by `Aggregator.MergedItemsMembers` and `Aggregator.MergedOfFailures` |
| Aggregator.Stats | api/aggregator.js:106-120 | the statistics after recording each result in order; characterised by `Aggregator.StatsKeys` and `Aggregator.StatsOfLast` |
| Aggregator.StatOf | api/aggregator.js:109-118 | a success records its item count, success and no error; a failure records 0 items, failure and its error; `Aggregator.StatsOfLast` proves that each source's statistic is that of its last result |
| Aggregator.Limited | api/aggregator.js:126 | `slice(0, limit)`, nothing for a NaN limit; characterised by `Sorting.SliceTo` and `Aggregator.ItemsNewestFirst` |
| Aggregator.MergedItemsMembers | api/aggregator.js:106-108 | an item is merged exactly when some result carries it |
| Aggregator.StatsKeys | api/aggregator.js:106-120 | the statistics have an entry for a source exactly when some result comes from it |
| Aggregator.SourcesOf | api/aggregator.js:109-114 | the listed sources are exactly those of the results |
| Aggregator.StatsKeysOfSources | api/aggregator.js:106-120 | a source has statistics exactly when it is among the results' sources |
| Aggregator.StatsOfLast | api/aggregator.js:109-118 | a source's statistics are those of its last result: item count and success, or 0, failure and the error |
| Aggregator.ItemsNewestFirst | api/aggregator.js:123-126 | the items are in non-increasing publication time; a limit that does not parse gives no items; a limit n ≥ 0 gives min(n, merged) items |
| Aggregator.Recency | api/aggregator.js:123 | the sort key of the comparator: the negated publication time, so that ascending key order is newest first; `Aggregator.ItemsNewestFirst` and `Aggregator.EqualTimesKeepMergedOrder` state the resulting order |
| Aggregator.ItemsAreTheNewest | api/aggregator.js:123-126 | the items are drawn from the merged ones, and none left out is newer than one kept |
| Aggregator.EqualTimesKeepMergedOrder | api/aggregator.js:123 | items with equal times keep their merged order: the sort is stable |
| Aggregator.MergedOfFailures | api/aggregator.js:107 | failed results contribute no items |
| Aggregator.SummaryCounts | api/aggregator.js:131-136 | the total counts every result; the successes are the number of successful results, which adds up over any split of the results; the item total is the number of items; the limit is echoed; no success means no items |
| Aggregator.Results | api/aggregator.js:49 | one result per selected source |
| Aggregator.RequestedLimit | api/aggregator.js:28 | `parseInt` of the `limit` parameter, 50 when it is absent; `None` stands for NaN |
| Aggregator.Param | api/aggregator.js:25-30 | a query parameter, or its default when the request lacks it; `Aggregator.Requested` reads `sources` (default `all`) and `Aggregator.Serve` reads `query` (default empty) through it, and `Aggregator.StaticRequestedNone` is a case it decides |
| Aggregator.Requested | api/aggregator.js:26-36 | the active sources the request selects, through `Aggregator.SelectSources`; `Aggregator.Serve` and `Aggregator.Respond` prove that an empty selection is exactly the `No valid sources specified` answer and that otherwise the summary counts one source per selected one |
| Aggregator.Serve | api/aggregator.js:25-57 | an empty selection is the 400 answer listing every active name, and that happens exactly then; otherwise the summary counts every selected source |
| Aggregator.Respond | api/aggregator.js:16-57 | a failed authentication is 401 with its message exactly; an authenticated empty selection is 400 exactly; otherwise a 200 over the selected sources |
| Aggregator.ServeRequest | api/aggregator.js:25-57 | the method gives the answer the request calls for after authentication |
| Aggregator.Handle | api/aggregator.js:11-57 | the answer and the new counter table are one authentication step followed by the answer it leads to |
| Aggregator.EmptySelectionRejected | api/aggregator.js:38-43 | an authenticated request selecting nothing gets the 400 listing every active name |
| Aggregator.AllFailedResponse | api/aggregator.js:49-57 | when every selected source fails, the answer is a 200 with no items, no success, and the failures' statistics |
| Aggregator.StaticActiveNames | api/aggregator.js:41 | the 400 answer lists `Twitter/X` and `NewsAPI` |
| Aggregator.StaticRequestedNone | api/aggregator.js:33-36 | `sources=twitter` selects nothing from the shipped catalogue |
| Aggregator.StaticTwitterRequestRejected | api/aggregator.js:33-43 | so an authenticated `sources=twitter` is answered with the 400 listing `Twitter/X` and `NewsAPI` |
| Aggregator.UnregisteredFails | api/aggregator.js:73-76 | a source not named `twitter` fails as not found |
| Aggregator.TwoUnregistered | api/aggregator.js:70-99 | two unregistered sources give two not-found failures, in order |
| Aggregator.StaticSourcesNeverDispatch | api/aggregator.js:7-9 | the shipped active sources are both not found in the registry |
| Aggregator.DisplayNamesFail | api/aggregator.js:73-76 | any sources named `Twitter/X` and `NewsAPI` fail as not found |
| Aggregator.StaticAllSourcesResponse | api/aggregator.js:26 | the default request is a 200 with no items, two sources, no success, and `Twitter/X` reported as not found |
| Aggregator.TwoFailuresResponse | api/aggregator.js:101-140 | two failed sources give a 200 with no items, two sources, no success, and the first failure's error in its statistics |
| Aggregator.FirstOfTwoFailures | api/aggregator.js:113-118 | the statistics of two distinct failed sources hold the first one's error |
| Aggregator.MixedResponse | api/aggregator.js:49-57 | a delivering `twitter` source then an unregistered one: a success and a not-found failure, two sources with one success, the registered source's items, and each source's own statistics |
| Aggregator.MixedStats | api/aggregator.js:101-120 | a success then a failure of another source: one success, the success's items, and each source's statistics |
| Transit.FilterVisits | api/Passage_Palaiseau.js:32-48 | the loop keeps the qualifying visits, in visit order |
| Transit.Qualifies | api/Passage_Palaiseau.js:37-39 | a visit is kept when its time is known and after now and its destination is listed; characterised by `Transit.QualifyingMembers` |
| Transit.Qualifying | api/Passage_Palaiseau.js:32-48 | the candidates of the kept visits, in visit order; characterised by `Transit.QualifyingMembers` and computed by `Transit.FilterVisits` |
| Transit.WaitMinutes | api/Passage_Palaiseau.js:40 | the whole minutes until arrival; bounded in `Transit.CandidateFacts` |
| Transit.QualifyingMembers | api/Passage_Palaiseau.js:32-48 | a candidate is kept exactly when some visit to a listed destination arrives strictly after now and yields it |
| Transit.CandidateFacts | api/Passage_Palaiseau.js:37-46 | a kept candidate goes to a listed destination, arrives after now, and waits m whole minutes where m minutes ≤ the gap < m+1 minutes |
| Transit.WaitReadsBack | api/Passage_Palaiseau.js:43 | the waiting text reads back as the number of minutes |
| Transit.NextPassages | api/Passage_Palaiseau.js:51-54 | the answer has min(4, kept) passages |
| Transit.Chosen | api/Passage_Palaiseau.js:51-53 | the four earliest candidates; characterised by `Transit.ChosenInArrivalOrder` and `Transit.ChosenAreTheEarliest` |
| Transit.ChosenInArrivalOrder | api/Passage_Palaiseau.js:51-54 | at most four passages, in arrival order, each stripped to destination and wait |
| Transit.ChosenAreTheEarliest | api/Passage_Palaiseau.js:51-53 | the chosen passages are drawn from the kept ones, and none left out arrives before one chosen |
| Transit.Handler | api/Passage_Palaiseau.js:9-56 | without a key the answer is the 500 before any request; otherwise it is the answer to the service's reply |
| Transit.Answer | api/Passage_Palaiseau.js:22-56 | the reply of the transit service turned into a response: a delivered stop monitoring gives the next passages of its qualifying visits, missing visits count as none, and any other reply is the 500; `Transit.Handler` ensures that it is the answer whenever a key is set, and `Transit.NoVisitsNoPassages` covers missing visits |
| Transit.NoVisitsNoPassages | api/Passage_Palaiseau.js:30 | a reply without a visit list gives no passages |
| CrimeStats.GroupWellGrouped | src/pages/ApiData.tsx:410-417 | the grouping has distinct indicators, each with at least one year and distinct years |
| CrimeStats.Group | src/pages/ApiData.tsx:410-417 | the grouping of the records by indicator and year; characterised by `CrimeStats.GroupIndicators`, `CrimeStats.GroupYears` and `CrimeStats.GroupValue` |
| CrimeStats.CountOf | src/pages/ApiData.tsx:416 | `parseInt(nombre) \|\| 0`: the parsed count, 0 for text that does not parse |
| CrimeStats.Indicators | src/pages/ApiData.tsx:412-413 | the indicators listed are exactly those of the records |
| CrimeStats.Cells | src/pages/ApiData.tsx:412-416 | the indicator and year pairs listed are exactly those of the records |
| CrimeStats.GroupIndicators | src/pages/ApiData.tsx:410-417 | an indicator is grouped exactly when some record has it |
| CrimeStats.GroupValue | src/pages/ApiData.tsx:416 | a cell holds the count of the last record for that indicator and year |
| CrimeStats.GroupYears | src/pages/ApiData.tsx:410-417 | a year is grouped under an indicator exactly when some record pairs them |
| CrimeStats.HasYearAfterPut | src/pages/ApiData.tsx:413-416 | one record's step adds its pair and keeps every other pair |
| CrimeStats.Without | src/pages/ApiData.tsx:423 | removing a year keeps exactly the other years |
| CrimeStats.LastYear | src/pages/ApiData.tsx:421-422 | the last year is a key and is greatest in string order |
| CrimeStats.PrevYear | src/pages/ApiData.tsx:421-423 | no previous year exactly when the last is the only one; otherwise a different key, greatest among the others |
| CrimeStats.Evolution | src/pages/ApiData.tsx:430 | the evolution times the previous value is the difference times 100 |
| CrimeStats.StatMeaning | src/pages/ApiData.tsx:419-440 | a statistic keeps its indicator and years, takes the greatest year and its value, and has an evolution exactly when the previous value is positive |
| CrimeStats.StatOf | src/pages/ApiData.tsx:419-440 | the statistic of one indicator; characterised by `CrimeStats.StatMeaning`, `CrimeStats.SingleYearNoEvolution` and `CrimeStats.SingleUndefinedYear` |
| CrimeStats.ValueOf | src/pages/ApiData.tsx:425-426 | the value read for a year: a missing year reads the key "undefined", and an absent key gives 0; `CrimeStats.StatMeaning` and `CrimeStats.SingleUndefinedYear` state the values it yields |
| CrimeStats.SingleYearNoEvolution | src/pages/ApiData.tsx:423-431 | a single year other than "undefined" gives its value and no evolution |
| CrimeStats.SingleUndefinedYear | src/pages/ApiData.tsx:423-431 | a single year keyed "undefined" is also read as the year before it, so a positive value gives an evolution of 0 and any other value none |
| CrimeStats.NoChangeNoEvolution | src/pages/ApiData.tsx:430 | equal last and previous values give an evolution of 0 |
| CrimeStats.FirstOccurrences | src/pages/ApiData.tsx:419 | the indicators in order of first appearance, each once; it holds exactly the texts of its input |
| CrimeStats.GroupOrder | src/pages/ApiData.tsx:410-419 | the groups come in the order in which their indicators first appear among the records |
| CrimeStats.Stats | src/pages/ApiData.tsx:419 | one statistic per indicator |
| CrimeStats.AddYearsMeaning | src/pages/ApiData.tsx:445 | adding years to the set keeps it without duplicates and holds exactly the old and new years |
| CrimeStats.AllYearsMeaning | src/pages/ApiData.tsx:443-446 | the collected years have no duplicates and are exactly the years of some indicator |
| CrimeStats.AllYears | src/pages/ApiData.tsx:443-447 | the distinct years of all groups; characterised by `CrimeStats.AllYearsMeaning` and `CrimeStats.AllYearsOfRecords` |
| CrimeStats.Years | src/pages/ApiData.tsx:443-446 | the years listed are exactly those of the records |
| CrimeStats.AllYearsOfRecords | src/pages/ApiData.tsx:443-447 | a year is collected exactly when some record has it |
| CrimeStats.GroupedYearIsRecorded | src/pages/ApiData.tsx:443-446 | a grouped year comes from a record |
| CrimeStats.RecordedYearIsGrouped | src/pages/ApiData.tsx:443-446 | a record's year is grouped under some indicator |
| CrimeStats.MetadataFields | src/pages/ApiData.tsx:452-460 | the metadata has the fixed update time, the period and the number of years, and every other key comes from the result's own metadata |
| CrimeStats.MetadataOf | src/pages/ApiData.tsx:452-460 | the result's metadata spread, then the update time, the period and the year count; characterised by `CrimeStats.MetadataFields` |
| CrimeStats.PeriodBounds | src/pages/ApiData.tsx:455-457 | with years, the period is the least and the greatest year joined by " - ", and bounds every year |
| CrimeStats.Period | src/pages/ApiData.tsx:455-458 | the period text; characterised by `CrimeStats.PeriodBounds` and `CrimeStats.PeriodIsNamed` |
| CrimeStats.GroupRecords | src/pages/ApiData.tsx:410-417 | the loop builds the grouping of the records |
| CrimeStats.GroupAfter | src/pages/ApiData.tsx:412-416 | one more record sets its year under its indicator, creating the indicator first when needed |
| CrimeStats.CollectYears | src/pages/ApiData.tsx:443-447 | the loop collects the years of the grouping |
| CrimeStats.ProcessCrimeData | src/pages/ApiData.tsx:404-466 | the loop builds the processed table of the results |
| CrimeStats.ProcessResult | src/pages/ApiData.tsx:409-461 | the loop's body builds the entry of a result set with records: its statistics, record total and metadata |
| CrimeStats.DataOf | src/pages/ApiData.tsx:449-461 | the entry of a result set with records; characterised by `CrimeStats.DataFacts` |
| CrimeStats.Processed | src/pages/ApiData.tsx:404-466 | the processed table; characterised by `CrimeStats.ProcessedAfter`, `CrimeStats.ProcessedTypes` and `CrimeStats.ProcessedOfLast` |
| CrimeStats.ProcessedAfter | src/pages/ApiData.tsx:408-461 | one more result set files its entry under its type, replacing an earlier one, when it has records, and changes nothing otherwise |
| CrimeStats.ProcessedTypes | src/pages/ApiData.tsx:408-409 | a type has an entry exactly when some result of that type has data |
| CrimeStats.Kinds | src/pages/ApiData.tsx:449 | the types listed are exactly those of the results with data |
| CrimeStats.ProcessedKinds | src/pages/ApiData.tsx:408-449 | a type has an entry exactly when it is listed |
| CrimeStats.ProcessedOfLast | src/pages/ApiData.tsx:449-461 | a type's entry is built from its last result with data |
| CrimeStats.StatNames | src/pages/ApiData.tsx:433-434 | the indicators of the statistics, in order |
| CrimeStats.DataFacts | src/pages/ApiData.tsx:449-461 | an entry's total is its record count, its statistics name each indicator once, exactly the indicators of its records, in order of first appearance, and its update time is fixed |
| CrimeStats.StatNamesAreKeys | src/pages/ApiData.tsx:419-441 | the statistics come in the grouping's indicator order, each indicator once |
| CrimeStats.YearsAvailable | src/pages/ApiData.tsx:443-459 | the years counted are the distinct years of the records; the period is "Non disponible" exactly when there are none |
| CrimeStats.PeriodIsNamed | src/pages/ApiData.tsx:455-458 | the period is "Non disponible" exactly when there are no years |
| CrimeStats.ContextParts | src/pages/ApiData.tsx:333-334 | in a context "code, department[, region]" the first part is the code and the second the department after a space |
| CrimeStats.ParseContext | src/pages/ApiData.tsx:333-341 | the code and department of a context; characterised by `CrimeStats.ContextRoundTrip` and `CrimeStats.NoContext` |
| CrimeStats.ContextRoundTrip | src/pages/ApiData.tsx:333-341 | parsing that context gives back the code and the department |
| CrimeStats.NoContext | src/pages/ApiData.tsx:333-341 | a missing or empty context gives an empty code and no department |
| Strings.NatToString | api/Passage_Palaiseau.js:43 | a number's text is a non-empty run of digits |
| Strings.NatToStringValue | api/Passage_Palaiseau.js:43 | the digits read back as the number |
| Strings.DigitRun | src/pages/ApiData.tsx:416 | the length of the leading run of digits |
| Strings.DigitRunOfDigits | src/pages/ApiData.tsx:416 | an all-digit text is one run |
| Strings.TrimStart | src/pages/ApiData.tsx:334 | a suffix of the text that starts with no white space, everything removed before it being white space |
| Strings.TrimEnd | src/pages/ApiData.tsx:334 | a prefix of the text that ends with no white space, everything removed after it being white space |
| Strings.Trim | src/pages/ApiData.tsx:334 | the factor of the text that starts after its leading white space and is followed only by white space, so everything removed is white space; it neither starts nor ends with white space |
| Strings.LeadingSpaces | src/pages/ApiData.tsx:334 | the length of the white-space run at the start of the text |
| Strings.TrimStartSkipsLeading | src/pages/ApiData.tsx:334 | trimming the start removes exactly the leading white-space run |
| Strings.TrimmedFactor | src/pages/ApiData.tsx:334 | a prefix of a suffix of the text, followed in that suffix only by white space, occurs in the text where the suffix starts and is followed only by white space |
| Strings.TrimSpacePrefix | src/pages/ApiData.tsx:334 | trimming keeps a trimmed text, and removes a leading space from it |
| Strings.UnsignedPrefixOfDigits | api/aggregator.js:52 | a text of digits is read whole |
| Strings.ParseIntOfDigits | api/aggregator.js:52 | `parseInt` of a text of digits is their value |
| Strings.ParseIntOfMinusDigits | api/aggregator.js:52 | `parseInt` of a minus followed by digits is their negated value |
| Strings.ParseIntOfNatToString | api/aggregator.js:52 | `parseInt` of a number's text is that number |
| Strings.ParseIntOfNegative | api/aggregator.js:52 | `parseInt` of a minus and a number's text is the negated number |
| Strings.ParseInt | api/aggregator.js:52 | decimal `parseInt`; characterised by `Strings.ParseIntOfNatToString` and `Strings.ParseIntOfNegative` |
| Strings.Split | api/sources/twitter.js:76 | at least one piece, none containing the separator |
| Strings.JoinSplit | api/sources/twitter.js:76-77 | joining the pieces of a split with the separator gives back the text |
| Strings.SplitJoin | src/pages/ApiData.tsx:334 | splitting the join of separator-free pieces gives back the pieces |
| Strings.SplitNoSeparator | api/aggregator.js:36 | a text without the separator is one piece |
| Strings.SplitAtSeparator | api/aggregator.js:36 | a separator-free head, the separator and a tail split into the head, then the tail's pieces |
| Strings.Join | api/sources/twitter.js:77 | `join(sep)`; characterised by `Strings.JoinSplit`, `Strings.SplitJoin` and `Twitter.JoinAppend` |
| Strings.FindFirst | api/middleware/auth.js:21 | the first position where the pattern occurs, or nothing when it never does |
| Strings.ReplaceFirstAtStart | api/middleware/auth.js:21 | removing the pattern from a text it starts removes that prefix |
| Strings.ReplaceFirst | api/middleware/auth.js:21 | the first-occurrence `replace`; characterised by `Strings.ReplaceFirstAtStart` |
| Strings.StrLeTotal | src/pages/ApiData.tsx:421 | the default string order is total |
| Strings.StrLeTransitive | src/pages/ApiData.tsx:421 | the default string order is transitive |
| Strings.StrLeAntisymmetric | src/pages/ApiData.tsx:421 | the default string order is antisymmetric |
| Strings.StrLe | src/pages/ApiData.tsx:421 | the default order of `sort()` on strings; a total order by `Strings.StrLeTotal`, `Strings.StrLeTransitive` and `Strings.StrLeAntisymmetric` |
| Strings.Greatest | src/pages/ApiData.tsx:422 | the greatest text is one of the texts |
| Strings.Least | src/pages/ApiData.tsx:457 | the least text is one of the texts |
| Strings.GreatestIsUpperBound | src/pages/ApiData.tsx:422 | no text is after the greatest |
| Strings.LeastIsLowerBound | src/pages/ApiData.tsx:457 | no text is before the least |
| Sorting.InsertBy | api/aggregator.js:123 | inserting into a sorted list gives a sorted list one longer, of the old elements and the new one |
| Sorting.InsertByPermutes | api/aggregator.js:123 | inserting adds exactly the new element to the multiset |
| Sorting.SortBy | api/aggregator.js:123 | the sort is a permutation of its input, sorted by the key |
| Sorting.InsertByWithKey | api/aggregator.js:123 | an insertion keeps the order among elements of a given key |
| Sorting.SortByStable | api/aggregator.js:123 | elements with equal keys keep their input order |
| Sorting.SortedPrefixIsLeast | api/Passage_Palaiseau.js:52-53 | in a sorted list a prefix holds no element with a greater key than one outside it |
| Sorting.SortTwo | api/config/sources.js:78 | two elements already in key order stay in that order |
| Sorting.SortedTakeIsLeast | api/Passage_Palaiseau.js:52-53 | a prefix of the sort is drawn from the input, and nothing left out has a smaller key |
| Sorting.SliceTo | api/aggregator.js:126 | `slice(0, end)` is a prefix of min(end, n) elements for end ≥ 0, and drops -end elements from the end otherwise |
| Dicts.Keys | api/config/sources.js:76 | one key per entry |
| Dicts.Get | api/config/sources.js:68 | a value is found exactly when the key is present, and is an entry for it |
| Dicts.EntryOfGet | api/config/sources.js:68 | a found value sits at some entry with that key |
| Dicts.GetOfDistinct | api/config/sources.js:68 | with distinct keys, each entry is found by its key |
| Dicts.Put | src/pages/ApiData.tsx:416 | after setting a key it maps to the value, other keys are unchanged, and a new key goes at the end |
| Dicts.PutKeepsDistinct | src/pages/ApiData.tsx:416 | setting keeps keys distinct |
| Dicts.PutNewAfterOne | api/sources/twitter.js:13 | a new key set after one entry goes second |
| Dicts.PutNewAfterTwo | api/sources/twitter.js:13 | a new key set after two entries goes third |
| Dicts.PutAllKeepsDistinct | src/pages/ApiData.tsx:453 | a spread keeps keys distinct |
| Dicts.PutAllGet | src/pages/ApiData.tsx:453 | after a spread a key has the spread value when the spread has one, and its old value otherwise |
| Dicts.PutEntries | src/pages/ApiData.tsx:416 | every entry after setting is the new pair or an old entry |

## Left out

- Network and HTTP. Every `fetch`, `res.status`, `res.json` and `res.setHeader` call, `new URL`, and the upstream endpoints are absent; replies are parameters. The `Cache-Control` header (`api/aggregator.js:55`) is not modelled.
- Concurrency. `Promise.allSettled` in `executeSourcesParallel` is a sequential loop with one result per source. Each source's outcome depends only on its own dispatch.
- Cryptography. The SHA-256 key hash is a function given to the authenticator. The timing safety of `crypto.timingSafeEqual` cannot be stated.
- The `AUTH_ERROR` path (`api/middleware/auth.js:56-63`). The only way to reach it is a byte-length mismatch between UTF-8 keys of equal UTF-16 length. Keys are sequences of characters here, so that path does not arise.
- The aggregator's 500 catch path (`api/aggregator.js:59-67`). No step of the model throws past the per-source capture.
- Two JavaScript edges. A key that names an `Object.prototype` member, such as `SOURCE_REGISTRY["constructor"]` or `groupedData["constructor"]` (`api/aggregator.js:73`, `src/pages/ApiData.tsx:413`), finds that member in the source; here only the listed keys are found. A repeated query parameter (`?sources=a&sources=b`) arrives as an array, and `sources.split` then throws into the 500 path; here every parameter is text.
- Environment and clock. `process.env`, `Date.now()` and `new Date()` are parameters. Times are integer milliseconds, and ISO-8601 parsing and printing are left out. An invalid date's NaN in the sort comparator (`api/aggregator.js:123`) is not modelled.
- The `timestamp` of an error answer and `startTime` are left out, as is every `console` call.
- CrimeStats.Evolution: the ratio is an exact real, not an IEEE double.
- Strings.ParseInt: `parseInt` is decimal only; the `0x` prefix is left out. Text that does not parse is `None`, which stands for NaN. The value is an exact integer, whereas JavaScript rounds it to a double above 2^53 ("9007199254740993" gives 9007199254740992); for `limit` and `nombre` this makes no difference in practice.
- Dicts: a JS object keeps insertion order here. JavaScript lists integer-like keys first; years such as `"2024"` are such keys, so the real `Object.keys` order differs. The model's year order only matters through the explicit string sort, which does not depend on it.
- Strings.StrLe: strings are compared by code point rather than by UTF-16 code unit; the two differ only beyond the Basic Multilingual Plane.
- Auth.MaxRequests: the `|| 50` fallback (`api/middleware/auth.js:113`) is unreachable, because every role has a limit.
- The sorts in `getActiveSources`, `formatAggregatedResponse` and the transit handler work in place in the source. Here they are a stable sort on values.
- Aggregator.Dispatch: the `data: { items: [], count: 0 }` of a failed result (`api/aggregator.js:92`) is not carried, since the formatting never reads it.
- Aggregator.ItemsNewestFirst: `|items| ≤ limit` holds only for a limit ≥ 0. A negative limit drops items from the end, as `slice` does (Sorting.SliceTo).
- The envelope's constant `format: 'aggregated'` field is not modelled, and neither is the `format` query parameter, which the handler reads but never uses.
- `requests_per_day` and `cache_ttl` are kept as data but never used, as in the source. `CACHE_CONFIG` is not part of this model.
- NewsAPI: the catalogue has a `newsapi` entry, but the repository has no adapter for it and `SOURCE_REGISTRY` does not register it. Only the Twitter adapter is modelled.
- CrimeStats: `annee` and `nombre` are taken as text, since `parseInt` converts `nombre`. A result's metadata values are limited to text or integers. A record without `annee` is written with the text "undefined", which is the property name JavaScript stores it under.
- `api/monitor.js` and `api/InfoTrafic.js` are not part of this model. They are thin HTTP glue over `authenticate` and `requirePermission` with one upstream call.
- The React components and pages are not part of this model, apart from `processCrimeData` and the context split. Neither are the build configuration and the entry points.
