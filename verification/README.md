# OpenDota MCP server: request bookkeeping, modelled in Dafny

The OpenDota MCP server exposes the public OpenDota (Dota 2 statistics) API as
MCP tools. Every tool funnels through one helper that sends a GET request and
returns a JSON dictionary. In the newer copy of the server
(`src/opendota_server/server.py`) that helper does three more things:

- It runs a sliding-window rate limiter: at most 60 requests per 60 seconds. When
  the limit is reached it sleeps until the oldest request leaves the window, plus
  0.1 s.
- It keeps an in-memory response cache. Entries are keyed by the endpoint and the
  name-sorted query parameters, and are served for 300 seconds.
- It turns every failure into an `{"error": text}` dictionary.

A janitor, `cleanup_cache`, deletes expired entries when it is called (the
entry point never reaches a call; see "## Left out"). The older copy
(`src/opendota-server/server.py`) has no limiter and no cache, but has a timeout
branch of its own. Both copies have the display helpers `format_rank_tier` and
`format_duration`.

The model is made of these modules:

- `Strings`: Python's `str` ordering, and `str`/`int` on integers.
- `QueryParams`: dicts as unique-name pair lists, `dict.update`, the merged request
  parameters, and `get_cache_key`.
- `Responses`: the upstream outcome, the failure classes and their texts.
- `RateLimit`: the limiter as functions over the timestamp log.
- `Cache`: lookups, TTL, the sweep.
- `Server`:
  - the `OpenDotaServer` class, whose fields are the two globals. Its methods
    `ApplyRateLimit`, `MakeOpenDotaRequest` and `CleanupCache` update them in place.
  - the specification function `Dispatch`, which those methods are proved against,
    and lemmas about `Dispatch`.
- `Formatting`: the two display helpers.
- `LegacyServer`: the older copy, and how it differs from the newer one.

Conventions of the model:

- Time is integer milliseconds. Each `time.time()` reading is a parameter: the
  limiter's `now`, the `slack` before it records, the delay before the cache read,
  and the delay before the store. These readings never run backwards.
- The HTTP exchange is an input `Outcome`: a success with its parsed body, an HTTP
  status error with status and body text, a timeout, or any other exception.
- A query-parameter dict is its insertion-ordered list of (name, `str(value)`)
  pairs.

Three facts about the code shape the model:

- The limiter runs before the cache is consulted, so a cache hit still records a
  timestamp and can still sleep (`Server.CacheHitStillWaits`).
- Errors are dictionaries with one `"error"` key, not exceptions.
- In the newer copy a timeout is not told apart: it falls under the generic
  `Unexpected error: …` branch.

The unit test of `format_rank_tier` expects code 53 to read "Ancient 3". The code
gives "Legend 3": tier 5 is Legend and Ancient is tier 6, which is also OpenDota's
numbering. The test is wrong, not the code. The model follows the code, and
`Formatting.LegendIsNotAncient` states both facts.

## Model

| member | source | states |
|---|---|---|
| Strings.IntRoundTrip | src/opendota_server/server.py:192 | the decimal text that `str` gives for a status code reads back to the same integer, negative or not |
| Strings.IntToStringInjective | src/opendota_server/server.py:192 | different status codes give different texts in the `HTTP error` message |
| QueryParams.SetKey | src/opendota_server/server.py:144 | assigning one name gives the old mapping with that name set, and keeps the names unique |
| QueryParams.Update | src/opendota_server/server.py:144 | `dict.update` yields the base mapping overridden by every pair of the update, with names kept unique |
| QueryParams.ApiParams | src/opendota_server/server.py:41-44 | the default parameters are `{api_key: key}` when the key is non-empty and `{}` otherwise |
| QueryParams.RequestParams | src/opendota_server/server.py:142-144 | the merged parameters are the defaults overridden by the caller's. `api_key` is present exactly when configured or supplied, and the caller's value wins on every name it passes |
| QueryParams.RequestParamsEmpty | src/opendota_server/server.py:142-148 | the merged parameters are empty, so the key stays the bare endpoint, exactly when no API key is configured and the caller passes no parameters |
| QueryParams.SortByName | src/opendota_server/server.py:124 | `sorted(items())` is a permutation of the pairs, of the same length |
| QueryParams.SortByNameSorts | src/opendota_server/server.py:124 | the sorted pairs have strictly increasing names under Python's string order and denote the same mapping |
| QueryParams.SortedIsCanonical | src/opendota_server/server.py:124 | two strictly sorted pair lists with the same mapping are equal |
| QueryParams.JoinPairs | src/opendota_server/server.py:124 | no contract of its own: `QueryParams.CacheKeyIsSortedPairs` states what the joined text of a key is |
| QueryParams.GetCacheKey | src/opendota_server/server.py:121-126 | the key is the bare endpoint exactly when the parameters are absent or empty; otherwise it starts with `endpoint?` and is longer |
| QueryParams.CacheKeyIsSortedPairs | src/opendota_server/server.py:121-126 | with parameters, the key is `endpoint?` followed by the joined `name=value` pairs of a strictly name-sorted list with the same mapping, and that list is the only such list |
| QueryParams.CacheKeyIgnoresOrder | src/opendota_server/server.py:121-126 | two dicts with the same name/value pairs, in any insertion order, give the same key |
| QueryParams.CacheKeyWithoutParams | tests/test_server.py:47-52 | `players/123` without parameters and with `limit=5` give the keys the test expects |
| QueryParams.CacheKeySortsNames | tests/test_server.py:54-57 | `{limit, offset}` gives `matches?limit=5&offset=10` |
| QueryParams.CacheKeyReordersNames | tests/test_server.py:58-61 | `{offset, limit}` also gives `matches?limit=5&offset=10` |
| Responses.ClassifyStatus | src/opendota_server/server.py:177-192 | status 429 means rate limited, 404 not found, 500 or more a server error, and anything else a plain HTTP error keeping code and text. Each case holds in both directions |
| Responses.Classify | src/opendota_server/server.py:166-195 | there is no failure exactly on success. A status error is classified by its code; a timeout or any other exception is "unexpected" with its `str(e)` |
| Responses.Message | src/opendota_server/server.py:180-195 | no contract of its own: its texts are the handler's literals and f-strings, and `Responses.MessageInjective` states that each text identifies its failure |
| Responses.MessageInjective | src/opendota_server/server.py:177-195 | the error text identifies the failure class, the status code and body text, or the exception detail |
| Responses.ErrorObject | src/opendota_server/server.py:180-195 | the error dictionary has exactly one key, and a caller that reads `"error"` from it gets the message back |
| RateLimit.Prune | src/opendota_server/server.py:101 | the kept log is no longer than the old one; `RateLimit.PruneCounts` and `RateLimit.PruneAppend` state which timestamps it keeps and in what order |
| RateLimit.PruneMembers | src/opendota_server/server.py:101 | a timestamp survives the prune exactly when it was in the log and is less than 60 s old |
| RateLimit.PruneCounts | src/opendota_server/server.py:101-104 | every copy of a timestamp less than 60 s old survives, and no copy of an older one, so the count that `len` takes at line 104 includes repeated timestamps |
| RateLimit.PruneAppend | src/opendota_server/server.py:101 | the survivors keep their order: pruning two logs joined is joining their prunes, and a single timestamp is kept exactly when it is in the window |
| RateLimit.Min | src/opendota_server/server.py:106 | `min` is an element of the log and no larger than any element |
| RateLimit.Admit | src/opendota_server/server.py:95-118 | the new log is the pruned log with exactly one timestamp appended, recorded after a sleep that is never negative |
| RateLimit.AdmitSleepsUntilOldestLeaves | src/opendota_server/server.py:104-116 | below 60 kept timestamps there is no sleep. At 60 or more it sleeps until the oldest has left the window, plus the buffer, so it sleeps more than 100 ms and the oldest is outside the window when the request is recorded |
| RateLimit.StepKeepsWindowBound | src/opendota_server/server.py:95-118 | with a clock that does not run backwards, one call keeps the log ordered and at most 60 timestamps in the window ending at the newest one |
| RateLimit.RunKeepsWindowBound | src/opendota_server/server.py:95-118 | any sequential run of calls ends with the log ordered, within the bound of 60, and no newer than the last recorded time |
| RateLimit.SpacedCallNeverWaits | src/opendota_server/server.py:104-116 | a call made more than one second after the last of a log spaced that far apart does not sleep, and keeps the spacing |
| RateLimit.SpacedRunNeverWaits | src/opendota_server/server.py:104-116 | a run whose calls come more than a second apart, starting from a log spaced that far apart, never sleeps |
| Cache.IsFresh | src/opendota_server/server.py:156 | no contract of its own: `Cache.Lookup` and `Cache.StoredEntryExpiresAfterTtl` state when an entry is served |
| Cache.Lookup | src/opendota_server/server.py:152-158 | an entry is served exactly when it exists and is younger than the TTL, and then its stored payload is returned |
| Cache.Sweep | src/opendota_server/server.py:1241-1251 | the entries kept are exactly the fresh ones, unchanged |
| Cache.Expired | src/opendota_server/server.py:1243-1247 | the keys deleted are exactly the entries at least one TTL old |
| Cache.StoredEntryExpiresAfterTtl | src/opendota_server/server.py:131 | a payload stored at t0 is served up to t0 + 300 s and not from then on |
| Cache.StoreLeavesOtherKeys | src/opendota_server/server.py:174 | storing under one key changes no other key's lookup |
| Cache.SweepPreservesLookups | src/opendota_server/server.py:1241-1251 | a sweep changes no lookup made at its own time or later |
| Cache.SweepLeavesOnlyHits | src/opendota_server/server.py:1241-1251 | every entry left after a sweep is a hit at that instant |
| Cache.SweepPartitions | src/opendota_server/server.py:1241-1251 | deleted and kept keys are disjoint and together make up the cache, so removed plus remaining equals the old size |
| Server.RequestKey | src/opendota_server/server.py:142-150 | the key is the bare endpoint exactly when no API key is configured and the caller passes no parameters |
| Server.Dispatch | src/opendota_server/server.py:134-195 | no contract of its own: the `Server` lemmas below state what a request does, and `Server.OpenDotaServer.MakeOpenDotaRequest` is proved equal to it |
| Server.EveryRequestIsRateLimited | src/opendota_server/server.py:138-139 | every request, cache hit or not, prunes the log and appends exactly one timestamp, no earlier than the limiter's clock reading |
| Server.CacheHitStillWaits | src/opendota_server/server.py:138-158 | with 60 requests in the window, a request served from the cache still sleeps more than 100 ms first |
| Server.FreshEntryIsServed | src/opendota_server/server.py:152-158 | a fresh entry is returned as stored, whatever the upstream would answer, and the cache is unchanged |
| Server.MissUsesOutcome | src/opendota_server/server.py:160-195 | on a miss or stale entry, a success is returned and stored with its store time. A failure returns its error dictionary and leaves the cache unchanged |
| Server.FailuresAreNotCached | src/opendota_server/server.py:166-195 | no failure ever changes the cache |
| Server.SameParamsSameEntry | src/opendota_server/server.py:142-150 | requests whose parameters hold the same pairs in any order use the same cache entry |
| Server.SweepIsInvisible | src/opendota_server/server.py:1241-1251 | a sweep made no later than a request's cache read changes nothing the request returns |
| Server.RequestKeepsWindowBound | src/opendota_server/server.py:139 | each request keeps the log ordered and within the bound of 60, and the clock still comes after its newest entry |
| Server.PruneLog | src/opendota_server/server.py:101 | the loop that filters the log computes exactly `Prune` |
| Server.Oldest | src/opendota_server/server.py:106 | the scan computes exactly `Min` |
| Server.OpenDotaServer.constructor | src/opendota_server/server.py:41-48 | the server starts with an empty timestamp log, an empty cache and its configured key |
| Server.OpenDotaServer.ApplyRateLimit | src/opendota_server/server.py:95-118 | the new log, the sleep and the recorded time are those of `Admit`, and the window bound is kept |
| Server.OpenDotaServer.MakeOpenDotaRequest | src/opendota_server/server.py:134-195 | the new log, the new cache and the returned dictionary are those of `Dispatch` |
| Server.OpenDotaServer.CleanupCache | src/opendota_server/server.py:1241-1251 | the cache becomes its sweep; the counts are the number deleted and the number kept, which add up to the old size |
| Formatting.MedalLabel | src/opendota_server/server.py:224 | the label is the medal name, a space and the single star digit |
| Formatting.FormatRankTier | src/opendota_server/server.py:198-224 | "Unknown" exactly for a missing code or one outside 10..89; "Immortal" exactly for 80..89; otherwise the medal of the tens digit with the units digit as stars |
| Formatting.RankLabelsInjective | src/opendota_server/server.py:213-224 | each code from 10 to 79 gets a label of its own |
| Formatting.RankTierExamples | tests/test_server.py:32-40 | the test cases for None, 0, 10, 21, 80 and 99 hold |
| Formatting.LegendIsNotAncient | tests/test_server.py:38 | code 53 reads "Legend 3", not the "Ancient 3" the test expects; 63 reads "Ancient 3" |
| Formatting.ZeroPad2 | src/opendota_server/server.py:230 | two digits that read back to the number |
| Formatting.FormatDuration | src/opendota_server/server.py:227-230 | the text ends in `:` and two digits, the first of them at most 5 |
| Formatting.DurationRoundTrip | src/opendota_server/server.py:227-230 | the seconds read back from the text, negative durations included |
| Formatting.DurationsDistinct | src/opendota-server/server.py:128-131 | different durations give different texts; the older copy's `format_duration` is the same code, modelled by the same function |
| Formatting.DurationExamples | tests/test_server.py:26-30 | 65, 3600 and 0 give `1:05`, `60:00` and `0:00` |
| LegacyServer.LegacyClassify | src/opendota-server/server.py:94-105 | a timeout has its own class; every other outcome is classified as in the newer copy |
| LegacyServer.LegacyRequest | src/opendota-server/server.py:77-105 | the parameters sent are the defaults overridden by the caller's. A success returns the body. A timeout returns the error dictionary of the timeout text, a status error that of its class's text, and any other exception `Unexpected error: ` and its detail |
| LegacyServer.CopiesAgreeExceptOnTimeouts | src/opendota-server/server.py:94-105 | on a cache miss the two copies return the same dictionary exactly when the outcome is not a timeout |
| LegacyServer.LegacyFormatRankTier | src/opendota-server/server.py:107-126 | "Unknown" exactly as in the newer copy; "Immortal" only for 80; 81..89 show their stars |
| LegacyServer.RankCopiesAgree | src/opendota-server/server.py:122-126 | the copies label a code alike exactly when it is not one of 81..89 |
| LegacyServer.LegacyImmortalStars | src/opendota-server/server.py:122-126 | 80 reads "Immortal" in both copies; 85 reads "Immortal 5" in the older copy and "Immortal" in the newer |

## Left out

- The HTTP exchange itself: the URL, headers, timeout setting, `raise_for_status` and JSON decoding. These are foreign calls, so the model takes their outcome as an input.
- `asyncio.sleep`: the limiter returns how long it sleeps and moves its clock by that much.
- Concurrency: the coroutines share the globals without a lock, and interleaved requests are not modelled. Every property is about sequential calls.
- Floating-point seconds: time is integer milliseconds, and the 0.1 s buffer is 100 ms.
- `start_cache_cleanup_task` and when `cleanup_cache` runs: this background coroutine is started inside `asyncio.run(startup())` (src/opendota_server/server.py:1269, 1288), and `asyncio.run` cancels it when `startup` returns. `startup` makes only the health request, which the limiter does not delay and whose HTTP call has 10 s timeouts (line 168). Unless that request still takes over 300 s, the coroutine is cancelled before its first sleep ends. So the `__main__` entry point never calls `cleanup_cache`, and the cache is never swept while `mcp.run` serves. The model treats `CleanupCache` as an operation that can be called and does not model the background coroutine.
- Logging, and reading `OPENDOTA_API_KEY` from the environment: the key is a constructor argument.
- `format_timestamp`, the MCP tool functions, the response parsers and the text they build, and `src/client.py`: these are presentation and callers, not the bookkeeping core.
- Parameter values: they are modelled as the text `str(v)` gives. The cache key and the query string only see that text.
- The older copy catches `httpx.TimeoutError`, and the model assumes that name resolves to httpx's timeout exception. If it did not exist, raising any exception there would fail with an `AttributeError`. The model does not capture this.
- Server.OpenDotaServer.CleanupCache: deletion order over the expired keys is not fixed (Python deletes in insertion order). Only the resulting cache is stated.
