/**
 * Request parameters and the cache key built from them.
 *
 * A Python `dict` of query parameters is modelled as its insertion-ordered list
 * of (name, value) pairs with unique names; a value stands for the text that
 * `str(v)` gives for it, which is all the cache key and the query string see.
 */
module QueryParams {
  import opened Options
  import opened Strings

  type Params = seq<(string, string)>

  /** The mapping the pair list denotes (the first pair wins; a dict has no repeated name). */
  function ToMap(p: Params): map<string, string>
    decreases |p|
  {
    if p == [] then map[] else ToMap(p[1..])[p[0].0 := p[0].1]
  }

  /** A dict's names are unique. */
  predicate IsDict(p: Params)
    decreases |p|
  {
    p == [] || (p[0].0 !in ToMap(p[1..]) && IsDict(p[1..]))
  }

  /** `d[k] = v`: replaces the value of an existing name in place, or appends a new pair. */
  function SetKey(d: Params, k: string, v: string): (r: Params)
    ensures ToMap(r) == ToMap(d)[k := v]
    ensures IsDict(d) ==> IsDict(r)
    decreases |d|
  {
    if d == [] then [(k, v)]
    else if d[0].0 == k then [(k, v)] + d[1..]
    else
      var rest := SetKey(d[1..], k, v);
      assert ([d[0]] + rest)[1..] == rest;
      [d[0]] + rest
  }

  /** `dict.update`: every pair of `upd`, in order, written into `base`. */
  function Update(base: Params, upd: Params): (r: Params)
    ensures IsDict(upd) ==> ToMap(r) == ToMap(base) + ToMap(upd)
    ensures IsDict(base) ==> IsDict(r)
    decreases |upd|
  {
    if upd == [] then base
    else
      var r := Update(SetKey(base, upd[0].0, upd[0].1), upd[1..]);
      assert IsDict(upd) ==> ToMap(r) == ToMap(base) + ToMap(upd) by {
        if IsDict(upd) {
          OverrideFirst(ToMap(base), upd[0].0, upd[0].1, ToMap(upd[1..]));
        }
      }
      r
  }

  /** Setting one name first and then overlaying a mapping without it is overlaying both. */
  lemma OverrideFirst(m: map<string, string>, k: string, v: string, rest: map<string, string>)
    requires k !in rest
    ensures m[k := v] + rest == m + rest[k := v]
  {
  }

  /** `API_PARAMS`: the `api_key` parameter when the configured key is non-empty, else nothing. */
  function ApiParams(apiKey: string): (p: Params)
    ensures IsDict(p)
    ensures ToMap(p) == if apiKey != "" then map["api_key" := apiKey] else map[]
  {
    var single := [("api_key", apiKey)];
    assert single[1..] == [];
    if apiKey != "" then single else []
  }

  /**
   * The parameters a request sends: a copy of the defaults, updated with the
   * caller's parameters when those are present and non-empty; the defaults overlaid with the caller's parameters, the caller winning on a clash.
   */
  function RequestParams(apiKey: string, params: Option<Params>): (r: Params)
    requires params.Some? ==> IsDict(params.value)
    ensures IsDict(r)
    ensures params.None? ==> ToMap(r) == ToMap(ApiParams(apiKey))
    ensures params.Some? ==> ToMap(r) == ToMap(ApiParams(apiKey)) + ToMap(params.value)
    ensures "api_key" in ToMap(r) <==>
              apiKey != "" || (params.Some? && "api_key" in ToMap(params.value))
    ensures params.Some? ==>
              forall k :: k in ToMap(params.value) ==> k in ToMap(r) && ToMap(r)[k] == ToMap(params.value)[k]
  {
    if params.Some? && params.value != [] then Update(ApiParams(apiKey), params.value)
    else ApiParams(apiKey)
  }

  /** Names strictly increasing under Python's string order. */
  predicate StrictlySorted(p: Params)
    decreases |p|
  {
    |p| <= 1 || (StrLess(p[0].0, p[1].0) && StrictlySorted(p[1..]))
  }

  /** One step of insertion sort by name. */
  function Insert(x: (string, string), p: Params): (r: Params)
    ensures multiset(r) == multiset(p) + multiset{x}
    ensures |r| == |p| + 1
    decreases |p|
  {
    if p == [] then [x]
    else if StrLess(x.0, p[0].0) then [x] + p
    else
      var rest := Insert(x, p[1..]);
      assert p == [p[0]] + p[1..];
      [p[0]] + rest
  }

  /** `sorted(params.items())`: the pairs ordered by name (names are unique, so values never decide). */
  function SortByName(p: Params): (r: Params)
    ensures multiset(r) == multiset(p)
    ensures |r| == |p|
    decreases |p|
  {
    if p == [] then []
    else
      var r := Insert(p[0], SortByName(p[1..]));
      assert p == [p[0]] + p[1..];
      r
  }

  /** In a strictly sorted list the first name is below every later one. */
  lemma {:induction false} HeadIsLeast(p: Params)
    requires StrictlySorted(p) && p != []
    ensures forall k :: k in ToMap(p[1..]) ==> StrLess(p[0].0, k)
    decreases |p|
  {
    if |p| > 1 {
      HeadIsLeast(p[1..]);
      assert p[1..][1..] == p[2..];
      forall k | k in ToMap(p[1..])
        ensures StrLess(p[0].0, k)
      {
        if k != p[1].0 {
          StrLessTransitive(p[0].0, p[1].0, k);
        }
      }
    }
  }

  lemma ToMapCons(x: (string, string), p: Params)
    ensures ToMap([x] + p) == ToMap(p)[x.0 := x.1]
  {
    assert ([x] + p)[1..] == p;
  }

  /** Inserting a new name adds exactly that pair to the mapping. */
  lemma {:induction false} InsertMap(x: (string, string), p: Params)
    requires x.0 !in ToMap(p)
    ensures ToMap(Insert(x, p)) == ToMap(p)[x.0 := x.1]
    decreases |p|
  {
    if p == [] || StrLess(x.0, p[0].0) {
      ToMapCons(x, p);
    } else {
      assert p == [p[0]] + p[1..];
      ToMapCons(p[0], p[1..]);
      InsertMap(x, p[1..]);
      ToMapCons(p[0], Insert(x, p[1..]));
    }
  }

  lemma {:induction false} InsertKeepsSorted(x: (string, string), p: Params)
    requires StrictlySorted(p) && x.0 !in ToMap(p)
    ensures StrictlySorted(Insert(x, p))
    ensures Insert(x, p)[0] == x || (p != [] && Insert(x, p)[0] == p[0])
    decreases |p|
  {
    if p == [] {
    } else if StrLess(x.0, p[0].0) {
      assert ([x] + p)[1..] == p;
    } else {
      var rest := Insert(x, p[1..]);
      assert p == [p[0]] + p[1..];
      ToMapCons(p[0], p[1..]);
      StrLessTotal(x.0, p[0].0);
      InsertKeepsSorted(x, p[1..]);
      assert ([p[0]] + rest)[1..] == rest;
    }
  }

  lemma {:induction false} SortByNameSorts(p: Params)
    requires IsDict(p)
    ensures StrictlySorted(SortByName(p))
    ensures ToMap(SortByName(p)) == ToMap(p)
    decreases |p|
  {
    if p != [] {
      SortByNameSorts(p[1..]);
      InsertKeepsSorted(p[0], SortByName(p[1..]));
      InsertMap(p[0], SortByName(p[1..]));
    }
  }

  lemma EmptyMapEmptyList(p: Params)
    ensures ToMap(p) == map[] <==> p == []
  {
    if p != [] {
      assert p[0].0 in ToMap(p);
    }
  }

  /** The merged parameters are empty exactly when no key is configured and the caller passes none. */
  lemma RequestParamsEmpty(apiKey: string, params: Option<Params>)
    requires params.Some? ==> IsDict(params.value)
    ensures RequestParams(apiKey, params) == [] <==> apiKey == "" && (params.None? || params.value == [])
  {
    EmptyMapEmptyList(RequestParams(apiKey, params));
    EmptyMapEmptyList(ApiParams(apiKey));
    if params.Some? {
      EmptyMapEmptyList(params.value);
    }
  }

  /** A strictly sorted pair list is determined by the mapping it denotes. */
  lemma {:induction false} SortedIsCanonical(a: Params, b: Params)
    requires StrictlySorted(a) && StrictlySorted(b)
    requires ToMap(a) == ToMap(b)
    ensures a == b
    decreases |a|
  {
    if a == [] || b == [] {
      EmptyMapEmptyList(a);
      EmptyMapEmptyList(b);
    } else {
      HeadIsLeast(a);
      HeadIsLeast(b);
      if a[0].0 != b[0].0 {
        assert a[0].0 in ToMap(b);
        assert b[0].0 in ToMap(a);
        assert StrLess(b[0].0, a[0].0);
        assert StrLess(a[0].0, b[0].0);
        StrLessAsymmetric(a[0].0, b[0].0);
        assert false;
      }
      StrLessIrreflexive(a[0].0);
      assert a[0].0 !in ToMap(a[1..]);
      assert b[0].0 !in ToMap(b[1..]);
      assert a[0].1 == ToMap(a)[a[0].0] == ToMap(b)[b[0].0] == b[0].1;
      assert ToMap(a[1..]) == ToMap(a) - {a[0].0};
      assert ToMap(b[1..]) == ToMap(b) - {b[0].0};
      SortedIsCanonical(a[1..], b[1..]);
      assert a == [a[0]] + a[1..] && b == [b[0]] + b[1..];
    }
  }

  /** The pairs written `name=value` and joined with `&`. */
  function JoinPairs(p: Params): string
    decreases |p|
  {
    if p == [] then ""
    else if |p| == 1 then p[0].0 + "=" + p[0].1
    else p[0].0 + "=" + p[0].1 + "&" + JoinPairs(p[1..])
  }

  /**
   * `get_cache_key(endpoint, params)`: the endpoint alone when `params` is absent
   * or empty, otherwise the endpoint, `?`, and the name-sorted `name=value` pairs
   * joined with `&`.
   */
  function GetCacheKey(endpoint: string, params: Option<Params>): (key: string)
    ensures key == endpoint <==> params.None? || params.value == []
    ensures key != endpoint ==> |key| > |endpoint| && key[..|endpoint| + 1] == endpoint + "?"
  {
    if params.Some? && params.value != [] then
      endpoint + "?" + JoinPairs(SortByName(params.value))
    else endpoint
  }

  /** The key depends only on the name/value pairs, not on the order they were inserted in. */
  lemma CacheKeyIgnoresOrder(endpoint: string, p: Params, q: Params)
    requires IsDict(p) && IsDict(q)
    requires ToMap(p) == ToMap(q)
    ensures GetCacheKey(endpoint, Some(p)) == GetCacheKey(endpoint, Some(q))
  {
    SortByNameSorts(p);
    SortByNameSorts(q);
    SortedIsCanonical(SortByName(p), SortByName(q));
    assert p == [] <==> q == [] by {
      if p != [] {
        assert p[0].0 in ToMap(p);
      }
      if q != [] {
        assert q[0].0 in ToMap(q);
      }
    }
  }

  /**
   * What a key with parameters spells: the endpoint, `?`, and the `name=value`
   * pairs of the one strictly name-sorted list that denotes the same mapping.
   */
  lemma CacheKeyIsSortedPairs(endpoint: string, p: Params)
    requires IsDict(p) && p != []
    ensures exists s :: StrictlySorted(s) && ToMap(s) == ToMap(p) &&
                        GetCacheKey(endpoint, Some(p)) == endpoint + "?" + JoinPairs(s)
    ensures forall s :: StrictlySorted(s) && ToMap(s) == ToMap(p) ==>
                        GetCacheKey(endpoint, Some(p)) == endpoint + "?" + JoinPairs(s)
  {
    SortByNameSorts(p);
    var sorted := SortByName(p);
    forall s | StrictlySorted(s) && ToMap(s) == ToMap(p)
      ensures GetCacheKey(endpoint, Some(p)) == endpoint + "?" + JoinPairs(s)
    {
      SortedIsCanonical(sorted, s);
    }
    assert StrictlySorted(sorted) && ToMap(sorted) == ToMap(p);
  }

  /** The cases pinned down by the unit tests of `get_cache_key`. */
  lemma CacheKeyWithoutParams()
    ensures GetCacheKey("players/123", None) == "players/123"
    ensures GetCacheKey("players/123", Some([("limit", "5")])) == "players/123?limit=5"
  {
    assert SortByName([("limit", "5")]) == [("limit", "5")];
  }

  lemma SortsTwoNames()
    ensures SortByName([("offset", "10"), ("limit", "5")]) == [("limit", "5"), ("offset", "10")]
    ensures SortByName([("limit", "5"), ("offset", "10")]) == [("limit", "5"), ("offset", "10")]
  {
    assert StrLess("limit", "offset") && !StrLess("offset", "limit");
    assert SortByName([("limit", "5")]) == [("limit", "5")];
    assert SortByName([("offset", "10")]) == [("offset", "10")];
  }

  lemma JoinsTwoPairs()
    ensures JoinPairs([("limit", "5"), ("offset", "10")]) == "limit=5&offset=10"
  {
    assert [("limit", "5"), ("offset", "10")][1..] == [("offset", "10")];
  }

  lemma CacheKeySortsNames()
    ensures GetCacheKey("matches", Some([("limit", "5"), ("offset", "10")])) == "matches?limit=5&offset=10"
  {
    var p := [("limit", "5"), ("offset", "10")];
    SortsTwoNames();
    JoinsTwoPairs();
    assert GetCacheKey("matches", Some(p)) == "matches" + "?" + "limit=5&offset=10";
  }

  lemma CacheKeyReordersNames()
    ensures GetCacheKey("matches", Some([("offset", "10"), ("limit", "5")])) == "matches?limit=5&offset=10"
  {
    var p := [("offset", "10"), ("limit", "5")];
    SortsTwoNames();
    JoinsTwoPairs();
    assert GetCacheKey("matches", Some(p)) == "matches" + "?" + "limit=5&offset=10";
  }
}
