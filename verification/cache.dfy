/**
 * The response cache `api_cache`: cache key to `(storedAt, payload)`, an entry
 * being served only while younger than the TTL, and the sweep of
 * `cleanup_cache`. Time is integer milliseconds.
 */
module Cache {
  import opened Options
  import opened Responses

  const CacheTtlMs := 300000

  datatype CacheEntry = CacheEntry(storedAt: int, data: Json)

  type ResponseCache = map<string, CacheEntry>

  /** An entry is served while it is younger than the TTL. */
  predicate IsFresh(e: CacheEntry, at: int) {
    at - e.storedAt < CacheTtlMs
  }

  /** The cache read of `make_opendota_request`: the stored payload if the entry exists and is fresh. */
  function Lookup(cache: ResponseCache, key: string, at: int): (r: Option<Json>)
    ensures r.Some? <==> key in cache && IsFresh(cache[key], at)
    ensures r.Some? ==> r.value == cache[key].data
  {
    if key in cache && IsFresh(cache[key], at) then Some(cache[key].data) else None
  }

  /** The entries `cleanup_cache` keeps at time `at`: exactly the fresh ones. */
  function Sweep(cache: ResponseCache, at: int): (r: ResponseCache)
    ensures forall k :: k in r <==> k in cache && IsFresh(cache[k], at)
    ensures forall k :: k in r ==> r[k] == cache[k]
  {
    map k | k in cache && IsFresh(cache[k], at) :: cache[k]
  }

  /** The keys `cleanup_cache` deletes at time `at`. */
  function Expired(cache: ResponseCache, at: int): (keys: set<string>)
    ensures forall k :: k in keys <==> k in cache && !IsFresh(cache[k], at)
  {
    set k | k in cache && !IsFresh(cache[k], at)
  }

  /** A payload stored at `t0` is served up to (not including) `t0 + TTL`, and not from then on. */
  lemma StoredEntryExpiresAfterTtl(cache: ResponseCache, key: string, t0: int, data: Json, at: int)
    ensures Lookup(cache[key := CacheEntry(t0, data)], key, at) ==
            (if at < t0 + CacheTtlMs then Some(data) else None)
  {
  }

  /** Storing under one key leaves every other key's lookups as they were. */
  lemma StoreLeavesOtherKeys(cache: ResponseCache, key: string, e: CacheEntry, other: string, at: int)
    requires other != key
    ensures Lookup(cache[key := e], other, at) == Lookup(cache, other, at)
  {
  }

  /**
   * Sweeping at time `sweptAt` changes no lookup made then or later: an entry it
   * removes was already stale, and stays stale as time goes on.
   */
  lemma SweepPreservesLookups(cache: ResponseCache, sweptAt: int, key: string, at: int)
    requires sweptAt <= at
    ensures Lookup(Sweep(cache, sweptAt), key, at) == Lookup(cache, key, at)
  {
    if key in cache && !IsFresh(cache[key], sweptAt) {
      assert !IsFresh(cache[key], at);
    }
  }

  /** After a sweep every entry left is served by a lookup made at the same instant. */
  lemma SweepLeavesOnlyHits(cache: ResponseCache, at: int, key: string)
    requires key in Sweep(cache, at)
    ensures Lookup(Sweep(cache, at), key, at) == Some(cache[key].data)
  {
  }

  /** A sweep splits the cache into the entries it deletes and the ones it keeps. */
  lemma SweepPartitions(cache: ResponseCache, at: int)
    ensures Sweep(cache, at).Keys + Expired(cache, at) == cache.Keys
    ensures Sweep(cache, at).Keys !! Expired(cache, at)
    ensures |Sweep(cache, at)| + |Expired(cache, at)| == |cache|
  {
    var kept := Sweep(cache, at).Keys;
    var gone := Expired(cache, at);
    assert kept + gone == cache.Keys;
    assert kept !! gone;
    assert |kept + gone| == |kept| + |gone|;
  }
}
