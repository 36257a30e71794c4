/**
 * The request bookkeeping of the newer server copy: the process-wide timestamp
 * log and response cache, `apply_rate_limit`, `make_opendota_request` and
 * `cleanup_cache`. The HTTP call is an `Outcome` given as input, and every
 * `time.time()` reading is a parameter.
 */
module Server {
  import opened Options
  import opened QueryParams
  import opened Responses
  import opened RateLimit
  import opened Cache

  /**
   * The clock readings of one request, each no earlier than the one before:
   * the limiter reads `now`; after its sleep it records the request `slack`
   * later; the cache is consulted `lookupDelay` after that; and a fetched
   * payload is stored `fetchDelay` after the cache was consulted.
   */
  datatype Timing = Timing(now: int, slack: nat, lookupDelay: nat, fetchDelay: nat)

  /** The two globals, `request_timestamps` and `api_cache`. */
  datatype ServerState = ServerState(timestamps: seq<int>, cache: ResponseCache)

  /** The state after a request and the dictionary it returned. */
  datatype Reply = Reply(state: ServerState, response: Json)

  /**
   * The cache key of a request: `endpoint` and `API_PARAMS` overlaid with the
   * caller's parameters. It is the bare endpoint exactly when no key is configured
   * and the caller passes no parameters.
   */
  function RequestKey(apiKey: string, endpoint: string, params: Option<Params>): (key: string)
    requires params.Some? ==> IsDict(params.value)
    ensures key == endpoint <==> apiKey == "" && (params.None? || params.value == [])
  {
    RequestParamsEmpty(apiKey, params);
    GetCacheKey(endpoint, Some(RequestParams(apiKey, params)))
  }

  /** When the request consults the cache: after the limiter has recorded it. */
  function LookupAt(st: ServerState, tm: Timing): int {
    Admit(st.timestamps, tm.now, tm.slack).recorded + tm.lookupDelay
  }

  /**
   * `make_opendota_request` as a function of the state: first the limiter, then
   * the cache read, and only on a miss the upstream outcome, stored when it is a
   * success and turned into `{"error": text}` otherwise.
   */
  function Dispatch(st: ServerState, apiKey: string, endpoint: string, params: Option<Params>,
                    tm: Timing, outcome: Outcome): Reply
    requires params.Some? ==> IsDict(params.value)
  {
    var admitted := Admit(st.timestamps, tm.now, tm.slack).log;
    var key := RequestKey(apiKey, endpoint, params);
    var at := LookupAt(st, tm);
    match Lookup(st.cache, key, at)
    case Some(data) => Reply(ServerState(admitted, st.cache), data)
    case None =>
      match outcome
      case Success(body) =>
        Reply(ServerState(admitted, st.cache[key := CacheEntry(at + tm.fetchDelay, body)]), body)
      case _ =>
        Reply(ServerState(admitted, st.cache), ErrorObject(Message(Classify(outcome).value)))
  }

  /** Every request passes the limiter and adds exactly one timestamp, a cache hit included. */
  lemma EveryRequestIsRateLimited(st: ServerState, apiKey: string, endpoint: string,
                                  params: Option<Params>, tm: Timing, outcome: Outcome)
    requires params.Some? ==> IsDict(params.value)
    ensures var r := Dispatch(st, apiKey, endpoint, params, tm, outcome);
      var a := Admit(st.timestamps, tm.now, tm.slack);
      r.state.timestamps == Prune(st.timestamps, tm.now) + [a.recorded] &&
      a.recorded >= tm.now
  {
  }

  /**
   * Because the limiter runs before the cache read, a request whose payload is
   * cached still sleeps when sixty requests are in the window, and is then
   * served from the cache.
   */
  lemma CacheHitStillWaits(st: ServerState, apiKey: string, endpoint: string,
                           params: Option<Params>, tm: Timing, outcome: Outcome)
    requires params.Some? ==> IsDict(params.value)
    requires Lookup(st.cache, RequestKey(apiKey, endpoint, params), LookupAt(st, tm)).Some?
    requires |Prune(st.timestamps, tm.now)| >= MaxRequestsPerMinute
    ensures Admit(st.timestamps, tm.now, tm.slack).slept > WaitBufferMs
    ensures Dispatch(st, apiKey, endpoint, params, tm, outcome).response ==
            st.cache[RequestKey(apiKey, endpoint, params)].data
  {
    AdmitSleepsUntilOldestLeaves(st.timestamps, tm.now, tm.slack);
  }

  /** A fresh entry is returned as stored, without the upstream outcome and without touching the cache. */
  lemma FreshEntryIsServed(st: ServerState, apiKey: string, endpoint: string,
                           params: Option<Params>, tm: Timing, outcome: Outcome)
    requires params.Some? ==> IsDict(params.value)
    requires var key := RequestKey(apiKey, endpoint, params);
      key in st.cache && LookupAt(st, tm) - st.cache[key].storedAt < CacheTtlMs
    ensures var r := Dispatch(st, apiKey, endpoint, params, tm, outcome);
      r.response == st.cache[RequestKey(apiKey, endpoint, params)].data && r.state.cache == st.cache
  {
  }

  /**
   * A missing or stale entry is refetched: a success is returned and stored
   * under the key with the time it was stored; a failure is returned as
   * `{"error": text}` and leaves the cache as it was.
   */
  lemma MissUsesOutcome(st: ServerState, apiKey: string, endpoint: string,
                        params: Option<Params>, tm: Timing, outcome: Outcome)
    requires params.Some? ==> IsDict(params.value)
    requires var key := RequestKey(apiKey, endpoint, params);
      key !in st.cache || LookupAt(st, tm) - st.cache[key].storedAt >= CacheTtlMs
    ensures var r := Dispatch(st, apiKey, endpoint, params, tm, outcome);
      var key := RequestKey(apiKey, endpoint, params);
      if outcome.Success? then
        r.response == outcome.body &&
        r.state.cache == st.cache[key := CacheEntry(LookupAt(st, tm) + tm.fetchDelay, outcome.body)]
      else
        r.response == ErrorObject(Message(Classify(outcome).value)) && r.state.cache == st.cache
  {
  }

  /** No failure is ever written to the cache, hit or miss. */
  lemma FailuresAreNotCached(st: ServerState, apiKey: string, endpoint: string,
                             params: Option<Params>, tm: Timing, outcome: Outcome)
    requires params.Some? ==> IsDict(params.value)
    requires !outcome.Success?
    ensures Dispatch(st, apiKey, endpoint, params, tm, outcome).state.cache == st.cache
  {
  }

  /** Two requests whose parameters hold the same pairs, in any order, read and write the same entry. */
  lemma SameParamsSameEntry(apiKey: string, endpoint: string, p: Params, q: Params)
    requires IsDict(p) && IsDict(q) && ToMap(p) == ToMap(q)
    ensures RequestKey(apiKey, endpoint, Some(p)) == RequestKey(apiKey, endpoint, Some(q))
  {
    var rp := RequestParams(apiKey, Some(p));
    var rq := RequestParams(apiKey, Some(q));
    CacheKeyIgnoresOrder(endpoint, rp, rq);
  }

  /** A sweep made no later than the cache read changes nothing a request returns. */
  lemma SweepIsInvisible(st: ServerState, sweptAt: int, apiKey: string, endpoint: string,
                         params: Option<Params>, tm: Timing, outcome: Outcome)
    requires params.Some? ==> IsDict(params.value)
    requires sweptAt <= LookupAt(st, tm)
    ensures var swept := ServerState(st.timestamps, Sweep(st.cache, sweptAt));
      Dispatch(swept, apiKey, endpoint, params, tm, outcome).response ==
      Dispatch(st, apiKey, endpoint, params, tm, outcome).response
  {
    var swept := ServerState(st.timestamps, Sweep(st.cache, sweptAt));
    assert LookupAt(swept, tm) == LookupAt(st, tm);
    SweepPreservesLookups(st.cache, sweptAt, RequestKey(apiKey, endpoint, params), LookupAt(st, tm));
  }

  /** A sequence of requests, with a clock that does not run backwards, keeps the window bound of sixty. */
  lemma RequestKeepsWindowBound(st: ServerState, apiKey: string, endpoint: string,
                                params: Option<Params>, tm: Timing, outcome: Outcome)
    requires params.Some? ==> IsDict(params.value)
    requires NonDecreasing(st.timestamps) && WindowBounded(st.timestamps)
    requires ClockAfter(st.timestamps, tm.now)
    ensures var r := Dispatch(st, apiKey, endpoint, params, tm, outcome);
      NonDecreasing(r.state.timestamps) && WindowBounded(r.state.timestamps) &&
      ClockAfter(r.state.timestamps, LookupAt(st, tm))
  {
    StepKeepsWindowBound(st.timestamps, tm.now, tm.slack);
  }

  /** The list comprehension of `apply_rate_limit` that drops the timestamps outside the window. */
  method PruneLog(log: seq<int>, now: int) returns (kept: seq<int>)
    ensures kept == Prune(log, now)
  {
    kept := [];
    var i := 0;
    while i < |log|
      invariant 0 <= i <= |log|
      invariant kept == Prune(log[..i], now)
    {
      assert log[..i + 1][..i] == log[..i];
      if now - log[i] < WindowMs {
        kept := kept + [log[i]];
      }
      i := i + 1;
    }
    assert log[..i] == log;
  }

  /** `min(timestamps)` as a scan over the list. */
  method Oldest(s: seq<int>) returns (m: int)
    requires |s| > 0
    ensures m == Min(s)
  {
    m := s[0];
    var i := 1;
    while i < |s|
      invariant 1 <= i <= |s|
      invariant m == Min(s[..i])
    {
      assert s[..i + 1][..i] == s[..i];
      if s[i] < m {
        m := s[i];
      }
      i := i + 1;
    }
    assert s[..i] == s;
  }

  /** The server process: its two globals and the `OPENDOTA_API_KEY` it was started with. */
  class OpenDotaServer {
    var requestTimestamps: seq<int>
    var apiCache: ResponseCache
    const apiKey: string

    constructor (apiKey: string)
      ensures requestTimestamps == [] && apiCache == map[] && this.apiKey == apiKey
    {
      requestTimestamps := [];
      apiCache := map[];
      this.apiKey := apiKey;
    }

    function State(): ServerState
      reads this
    {
      ServerState(requestTimestamps, apiCache)
    }

    /**
     * `apply_rate_limit`: drop the timestamps that have left the window, sleep
     * if sixty remain, then record the request. Returns how long it slept and
     * the timestamp it recorded.
     */
    method ApplyRateLimit(now: int, slack: nat) returns (slept: int, recorded: int)
      modifies this`requestTimestamps
      ensures var a := Admit(old(requestTimestamps), now, slack);
        requestTimestamps == a.log && slept == a.slept && recorded == a.recorded
      ensures NonDecreasing(old(requestTimestamps)) && WindowBounded(old(requestTimestamps)) &&
              ClockAfter(old(requestTimestamps), now) ==>
              NonDecreasing(requestTimestamps) && WindowBounded(requestTimestamps)
    {
      var log := requestTimestamps;
      var kept := PruneLog(log, now);
      requestTimestamps := kept;

      slept := 0;
      if |kept| >= MaxRequestsPerMinute {
        var oldest := Oldest(kept);
        var timeToWait := WindowMs - (now - oldest) + WaitBufferMs;
        if timeToWait > 0 {
          slept := timeToWait;  // the sleep itself is not modelled, only its length
        }
      }
      recorded := now + slept + slack;
      requestTimestamps := kept + [recorded];
      assert Admit(log, now, slack) == Admission(slept, recorded, requestTimestamps);

      if NonDecreasing(log) && WindowBounded(log) && ClockAfter(log, now) {
        StepKeepsWindowBound(log, now, slack);
      }
    }

    /**
     * `make_opendota_request`: the limiter, the key over the merged parameters,
     * the cache read, and on a miss the upstream outcome.
     */
    method MakeOpenDotaRequest(endpoint: string, params: Option<Params>, tm: Timing, outcome: Outcome)
      returns (response: Json)
      requires params.Some? ==> IsDict(params.value)
      modifies this
      ensures var r := Dispatch(old(State()), apiKey, endpoint, params, tm, outcome);
        State() == r.state && response == r.response
    {
      ghost var st := State();
      var _, recorded := ApplyRateLimit(tm.now, tm.slack);

      var requestParams := RequestParams(apiKey, params);
      var cacheKey := GetCacheKey(endpoint, Some(requestParams));
      assert cacheKey == RequestKey(apiKey, endpoint, params);

      var lookupAt := recorded + tm.lookupDelay;
      assert lookupAt == LookupAt(st, tm);
      ghost var r := Dispatch(st, apiKey, endpoint, params, tm, outcome);
      if cacheKey in apiCache {
        var entry := apiCache[cacheKey];
        if lookupAt - entry.storedAt < CacheTtlMs {
          assert Lookup(st.cache, cacheKey, lookupAt) == Some(entry.data);
          return entry.data;
        }
      }
      assert Lookup(st.cache, cacheKey, lookupAt).None?;

      match outcome {
        case Success(body) =>
          apiCache := apiCache[cacheKey := CacheEntry(lookupAt + tm.fetchDelay, body)];
          response := body;
        case HttpStatus(code, text) =>
          response := ErrorObject(Message(ClassifyStatus(code, text)));
        case Timeout(detail) =>
          response := ErrorObject(Message(Unexpected(detail)));
        case Exception(detail) =>
          response := ErrorObject(Message(Unexpected(detail)));
      }
      assert State() == r.state && response == r.response;
    }

    /**
     * `cleanup_cache` at time `now`: collect the expired keys, then delete them.
     * Returns how many were removed and how many remain.
     */
    method CleanupCache(now: int) returns (removed: nat, remaining: nat)
      modifies this`apiCache
      ensures apiCache == Sweep(old(apiCache), now)
      ensures removed == |Expired(old(apiCache), now)| && remaining == |apiCache|
      ensures removed + remaining == |old(apiCache)|
    {
      var expiredKeys: set<string> := {};
      var unseen := apiCache.Keys;
      while unseen != {}
        invariant unseen <= apiCache.Keys
        invariant forall k :: k in expiredKeys <==>
                    k in apiCache && k !in unseen && !IsFresh(apiCache[k], now)
        decreases unseen
      {
        var key :| key in unseen;
        if now - apiCache[key].storedAt >= CacheTtlMs {
          expiredKeys := expiredKeys + {key};
        }
        unseen := unseen - {key};
      }
      assert expiredKeys == Expired(apiCache, now);

      ghost var before := apiCache;
      var pending := expiredKeys;
      removed := 0;
      while pending != {}
        invariant pending <= expiredKeys
        invariant apiCache == before - (expiredKeys - pending)
        invariant removed + |pending| == |expiredKeys|
        decreases pending
      {
        var key :| key in pending;
        apiCache := apiCache - {key};
        pending := pending - {key};
        removed := removed + 1;
      }
      assert apiCache == Sweep(before, now);
      SweepPartitions(before, now);
      remaining := |apiCache|;
    }
  }
}
