/**
 * The older copy of the server: a stateless `make_opendota_request` (no rate
 * limiter, no cache) whose error handling has a timeout branch of its own, and a
 * `format_rank_tier` that shows the stars of an Immortal code. Its
 * `format_duration` is the same as the newer copy's, `Formatting.FormatDuration`.
 */
module LegacyServer {
  import opened Options
  import opened QueryParams
  import opened Responses
  import opened Formatting
  import Cache
  import Server

  /** Older copy: a timeout has its own text; everything else is handled as in the newer copy. */
  function LegacyClassify(o: Outcome): (f: Option<Failure>)
    ensures f.None? <==> o.Success?
    ensures o.Timeout? ==> f == Some(TimedOut)
    ensures !o.Timeout? ==> f == Classify(o)
  {
    if o.Timeout? then Some(TimedOut) else Classify(o)
  }

  /** What one request of the older copy did: the query parameters it sent and the dictionary it returned. */
  datatype LegacyCall = LegacyCall(sentParams: Params, response: Json)

  /** `make_opendota_request` of the older copy: merge the parameters, call, map a failure to its text. */
  function LegacyRequest(apiKey: string, params: Option<Params>, outcome: Outcome): (c: LegacyCall)
    requires params.Some? ==> IsDict(params.value)
    ensures IsDict(c.sentParams)
    ensures params.Some? ==> ToMap(c.sentParams) == ToMap(ApiParams(apiKey)) + ToMap(params.value)
    ensures params.None? ==> ToMap(c.sentParams) == ToMap(ApiParams(apiKey))
    ensures outcome.Success? ==> c.response == outcome.body
    ensures outcome.Timeout? ==> c.response == ErrorObject(TimedOutText)
    ensures outcome.HttpStatus? ==>
              c.response == ErrorObject(Message(ClassifyStatus(outcome.code, outcome.text)))
    ensures outcome.Exception? ==> c.response == ErrorObject("Unexpected error: " + outcome.detail)
  {
    var sent := RequestParams(apiKey, params);
    match LegacyClassify(outcome)
    case None => LegacyCall(sent, outcome.body)
    case Some(f) => LegacyCall(sent, ErrorObject(Message(f)))
  }

  /**
   * On a cache miss the two copies return the same thing for every outcome but a
   * timeout; for a timeout they return different error texts.
   */
  lemma CopiesAgreeExceptOnTimeouts(st: Server.ServerState, apiKey: string, endpoint: string,
                                    params: Option<Params>, tm: Server.Timing, outcome: Outcome)
    requires params.Some? ==> IsDict(params.value)
    requires Cache.Lookup(st.cache, Server.RequestKey(apiKey, endpoint, params), Server.LookupAt(st, tm)).None?
    ensures var newer := Server.Dispatch(st, apiKey, endpoint, params, tm, outcome).response;
      var older := LegacyRequest(apiKey, params, outcome).response;
      newer == older <==> !outcome.Timeout?
  {
    if outcome.Timeout? {
      var newer := Server.Dispatch(st, apiKey, endpoint, params, tm, outcome).response;
      var older := LegacyRequest(apiKey, params, outcome).response;
      assert newer == ErrorObject(Message(Unexpected(outcome.detail)));
      assert older == ErrorObject(Message(TimedOut));
      if newer == older {
        assert Message(Unexpected(outcome.detail)) == Message(TimedOut);
        MessageInjective(Unexpected(outcome.detail), TimedOut);
      }
    }
  }

  /**
   * `format_rank_tier` of the older copy: as the newer one, except that only code
   * 80 is plain "Immortal" and 81..89 show their stars like the other medals.
   */
  function LegacyFormatRankTier(rankTier: Option<int>): (r: string)
    ensures r == "Unknown" <==> rankTier.None? || !(10 <= rankTier.value < 90)
    ensures r == "Immortal" <==> rankTier == Some(80)
    ensures rankTier.Some? && 10 <= rankTier.value < 90 && rankTier.value != 80 ==>
              r == MedalLabel(rankTier.value / 10, rankTier.value % 10)
  {
    if rankTier.None? || rankTier.value == 0 then "Unknown"
    else
      var tier := rankTier.value / 10;
      var stars := rankTier.value % 10;
      if tier < 1 || tier >= |RankNames| then "Unknown"
      else if tier == 8 && stars == 0 then "Immortal"
      else MedalLabel(tier, stars)
  }

  /** The two copies label a code alike exactly when it is not an Immortal code with stars. */
  lemma RankCopiesAgree(rankTier: Option<int>)
    ensures FormatRankTier(rankTier) == LegacyFormatRankTier(rankTier) <==>
            !(rankTier.Some? && 81 <= rankTier.value < 90)
  {
    if rankTier.Some? && 81 <= rankTier.value < 90 {
      assert LegacyFormatRankTier(rankTier) != "Immortal";
    }
  }

  /** The older copy keeps the stars of every Immortal code. */
  lemma LegacyImmortalStars()
    ensures LegacyFormatRankTier(Some(80)) == "Immortal"
    ensures LegacyFormatRankTier(Some(85)) == "Immortal 5"
    ensures FormatRankTier(Some(85)) == "Immortal"
  {
    assert MedalLabel(8, 5) == RankNames[8] + " " + "5";
  }
}
