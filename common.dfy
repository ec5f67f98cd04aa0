// Response assembly and the response cache (core/common.py): the two response
// formatters, and the lookup and store that key the enhanced search cache by
// `get_cache_key(f"{query}:{num_results}")`. JSON encoding is the identity on the
// response record; `get_cache_key`'s MD5 digest is the function parameter `hash`.

module Common {
  import opened Base
  import opened Text
  import opened Dates
  import opened Urls
  import opened Results
  import opened Tracking
  import opened Ranking
  import opened Caches

  /** The response dictionary both formatters serialise. */
  datatype Response = Response(
    query: string,
    totalResults: int,
    sources: seq<(string, int)>,
    distribution: Counts,
    results: seq<Hit>,
    cached: bool)

  // ---- format_fallback_search_response ----

  /** `distribution[source.lower()] += 1` over the ranked results, keys in first-seen
      order. */
  function SourceCounts(rs: seq<Hit>): Counts
    decreases |rs|
  {
    if rs == [] then [] else Bump(SourceCounts(rs[..|rs| - 1]), Lower(rs[|rs| - 1].source))
  }

  function CountLowerSource(rs: seq<Hit>, e: string): nat
    decreases |rs|
  {
    if rs == [] then 0 else CountLowerSource(rs[..|rs| - 1], e) + (if Lower(rs[|rs| - 1].source) == e then 1 else 0)
  }

  method CountSources(rs: seq<Hit>) returns (distribution: Counts)
    ensures distribution == SourceCounts(rs)
  {
    distribution := [];
    for i := 0 to |rs|
      invariant distribution == SourceCounts(rs[..i])
    {
      assert rs[..i + 1][..i] == rs[..i];
      distribution := Bump(distribution, Lower(rs[i].source));
    }
    assert rs[..|rs|] == rs;
  }

  /** The distribution counts each result once, under its lowercased source, and has
      a key only for sources that occur. */
  lemma {:induction false} SourceCountsExact(rs: seq<Hit>, e: string)
    ensures Sum(SourceCounts(rs)) == |rs|
    ensures Get(SourceCounts(rs), e) == if CountLowerSource(rs, e) == 0 then None else Some(CountLowerSource(rs, e))
    decreases |rs|
  {
    if rs != [] {
      var p := rs[..|rs| - 1];
      SourceCountsExact(p, e);
      SourceCountsExact(p, Lower(rs[|rs| - 1].source));
      GetBump(SourceCounts(p), Lower(rs[|rs| - 1].source), e);
    }
  }

  /** The response `format_fallback_search_response` serialises. */
  function FallbackResponse(query: string, primary: seq<Hit>, secondary: seq<Hit>, brave: seq<Hit>,
                            numResults: int, strategy: Strategy): Response
  {
    var ranked := FallbackRanked(primary, secondary, brave, numResults, strategy);
    Response(query, |ranked|,
             [("Google/Startpage", |primary|), ("Bing/DuckDuckGo", |secondary|), ("Brave", |brave|)],
             SourceCounts(ranked), ranked, false)
  }

  method FormatFallbackSearchResponse(query: string, primary: seq<Hit>, secondary: seq<Hit>, brave: seq<Hit>,
                                      numResults: int, strategy: Strategy)
    returns (response: Response)
    ensures response == FallbackResponse(query, primary, secondary, brave, numResults, strategy)
  {
    var rankedResults := QualityFirstRankingFallback(primary, secondary, brave, numResults, strategy);
    var distribution := CountSources(rankedResults);
    response := Response(query, |rankedResults|,
                         [("Google/Startpage", |primary|), ("Bing/DuckDuckGo", |secondary|), ("Brave", |brave|)],
                         distribution, rankedResults, false);
  }

  /** total_results is the number of ranked results, the distribution adds up to it,
      and `sources` reports the three slot sizes before ranking. */
  lemma FallbackResponseFacts(query: string, primary: seq<Hit>, secondary: seq<Hit>, brave: seq<Hit>,
                              numResults: int, strategy: Strategy)
    ensures var r := FallbackResponse(query, primary, secondary, brave, numResults, strategy);
      r.totalResults == |r.results| && Sum(r.distribution) == r.totalResults
      && r.sources == [("Google/Startpage", |primary|), ("Bing/DuckDuckGo", |secondary|), ("Brave", |brave|)]
      && (0 <= numResults ==> r.totalResults <= numResults)
      && !r.cached
  {
    var ranked := FallbackRanked(primary, secondary, brave, numResults, strategy);
    SourceCountsExact(ranked, "");
    FallbackRankedProperties(primary, secondary, brave, numResults, strategy);
  }

  // ---- format_search_response ----

  /** How one URL is tagged: `add_tracking_to_url(url, engine, search_id)`, or None
      for the ValueError of a URL `urlparse` rejects. */
  type Tagger = (string, string, string) -> Option<string>

  /** The tracking loop: each result's url becomes `tag(url, source, search_id)`; the
      first URL that cannot be tagged aborts the loop. The response uses
      `tag == AddTracking`. */
  function TrackedUrls(rs: seq<Hit>, tag: Tagger, searchId: string): Option<seq<Hit>>
    decreases |rs|
  {
    if rs == [] then Some([])
    else
      match TrackedUrls(rs[..|rs| - 1], tag, searchId)
      case None => None
      case Some(p) =>
        var x := rs[|rs| - 1];
        match tag(x.url, x.source, searchId)
        case None => None
        case Some(u) => Some(p + [x.(url := u)])
  }

  lemma TrackedUrlsStep(rs: seq<Hit>, i: nat, tag: Tagger, searchId: string)
    requires i < |rs|
    ensures TrackedUrls(rs[..i + 1], tag, searchId)
      == match TrackedUrls(rs[..i], tag, searchId)
         case None => None
         case Some(p) =>
           (match tag(rs[i].url, rs[i].source, searchId)
            case None => None
            case Some(u) => Some(p + [rs[i].(url := u)]))
  {
    assert rs[..i + 1][..i] == rs[..i];
  }

  /** Once a URL fails to parse, the loop never finishes. */
  lemma {:induction false} TrackedUrlsFails(rs: seq<Hit>, k: nat, tag: Tagger, searchId: string)
    requires k <= |rs| && TrackedUrls(rs[..k], tag, searchId).None?
    ensures TrackedUrls(rs, tag, searchId).None?
    decreases |rs| - k
  {
    if k < |rs| {
      TrackedUrlsStep(rs, k, tag, searchId);
      TrackedUrlsFails(rs, k + 1, tag, searchId);
    } else {
      assert rs[..k] == rs;
    }
  }

  /** `for i, result in enumerate(ranked_results): result["url"] = tracked_url`,
      rewriting the list in place. */
  method AddTrackingToResults(rs: seq<Hit>, searchId: string) returns (r: Option<seq<Hit>>)
    ensures r == TrackedUrls(rs, AddTracking, searchId)
  {
    var results := rs;
    for i := 0 to |results|
      invariant |results| == |rs|
      invariant forall j :: i <= j < |rs| ==> results[j] == rs[j]
      invariant TrackedUrls(rs[..i], AddTracking, searchId) == Some(results[..i])
    {
      var result := results[i];
      TrackedUrlsStep(rs, i, AddTracking, searchId);
      var trackedUrl := AddTracking(result.url, result.source, searchId);
      if trackedUrl.None? {
        TrackedUrlsFails(rs, i + 1, AddTracking, searchId);
        return None;
      }
      results := results[i := result.(url := trackedUrl.value)];
      assert results[..i + 1] == results[..i] + [results[i]];
    }
    assert rs[..|rs|] == rs && results[..|results|] == results;
    return Some(results);
  }

  /** Every URL of the list can be tagged. */
  predicate AllTagged(rs: seq<Hit>, tag: Tagger, searchId: string)
  {
    forall i :: 0 <= i < |rs| ==> tag(rs[i].url, rs[i].source, searchId).Some?
  }

  /** `t` is `rs` with each url replaced by its tagged form. */
  predicate TrackedFrom(t: seq<Hit>, rs: seq<Hit>, tag: Tagger, searchId: string)
    requires AllTagged(rs, tag, searchId)
  {
    |t| == |rs|
    && forall i :: 0 <= i < |rs| ==> t[i] == rs[i].(url := tag(rs[i].url, rs[i].source, searchId).value)
  }

  /** The loop succeeds iff every URL can be tagged (for `AddTracking`: iff every URL
      parses); then it keeps every result in place and changes only its url, to the
      tagged one. */
  lemma {:induction false} TrackedUrlsExact(rs: seq<Hit>, tag: Tagger, searchId: string)
    ensures TrackedUrls(rs, tag, searchId).Some? <==> AllTagged(rs, tag, searchId)
    ensures AllTagged(rs, tag, searchId) ==> TrackedFrom(TrackedUrls(rs, tag, searchId).value, rs, tag, searchId)
    decreases |rs|
  {
    if rs != [] {
      var p := rs[..|rs| - 1];
      var x := rs[|rs| - 1];
      TrackedUrlsExact(p, tag, searchId);
      assert forall i :: 0 <= i < |p| ==> p[i] == rs[i];
      assert AllTagged(rs, tag, searchId) <==> AllTagged(p, tag, searchId) && tag(x.url, x.source, searchId).Some?;
      if AllTagged(rs, tag, searchId) {
        var t := TrackedUrls(p, tag, searchId).value;
        var u := tag(x.url, x.source, searchId).value;
        assert TrackedUrls(rs, tag, searchId) == Some(t + [x.(url := u)]);
      }
    }
  }

  /** The ranked list `quality_first_ranking` returns; None for the smart branch,
      which raises. */
  function Ranked(ddg: seq<Hit>, bing: seq<Hit>, startpage: seq<Hit>, google: seq<Hit>, brave: seq<Hit>,
                  numResults: int, strategy: Strategy): Option<seq<Hit>>
  {
    if strategy == Smart then None
    else Some(QualityRanked(Pool(ddg, bing, startpage, google, brave, numResults), numResults))
  }

  /** The response `format_search_response` serialises, or None when it raises. The
      distribution is taken before the URLs are rewritten. */
  function SearchResponse(query: string, ddg: seq<Hit>, bing: seq<Hit>, startpage: seq<Hit>, google: seq<Hit>,
                          brave: seq<Hit>, numResults: int, strategy: Strategy, searchId: string): Option<Response>
  {
    match Ranked(ddg, bing, startpage, google, brave, numResults, strategy)
    case None => None
    case Some(ranked) =>
      match TrackedUrls(ranked, AddTracking, searchId)
      case None => None
      case Some(tracked) =>
        Some(Response(query, |ranked|,
                      [("DuckDuckGo", |ddg|), ("Bing", |bing|), ("Startpage", |startpage|),
                       ("Google", |google|), ("Brave", |brave|)],
                      Distribution(ranked), tracked, false))
  }

  method FormatSearchResponse(query: string, ddg: seq<Hit>, bing: seq<Hit>, startpage: seq<Hit>,
                              google: seq<Hit>, brave: seq<Hit>, numResults: int, strategy: Strategy,
                              clock: Instant)
    returns (response: Option<Response>)
    requires ValidInstant(clock)
    ensures response == SearchResponse(query, ddg, bing, startpage, google, brave, numResults, strategy,
                                       SearchId(clock))
  {
    var searchId := SearchId(clock);
    var rankedResults := QualityFirstRanking(ddg, bing, startpage, google, brave, numResults, strategy);
    if rankedResults.None? {
      return None;
    }
    var distribution := EngineDistribution(rankedResults.value);
    var tracked := AddTrackingToResults(rankedResults.value, searchId);
    if tracked.None? {
      return None;
    }
    response := Some(Response(query, |rankedResults.value|,
                              [("DuckDuckGo", |ddg|), ("Bing", |bing|), ("Startpage", |startpage|),
                               ("Google", |google|), ("Brave", |brave|)],
                              distribution, tracked.value, false));
  }

  /** Every candidate in the pool is labelled with one of the five engine names. */
  lemma PoolSources(ddg: seq<Hit>, bing: seq<Hit>, startpage: seq<Hit>, google: seq<Hit>, brave: seq<Hit>,
                    n: int, h: Hit)
    requires h in Pool(ddg, bing, startpage, google, brave, n)
    ensures h.source in {"duckduckgo", "bing", "startpage", "google", "brave"}
  {
  }

  /** A search id is plain enough to survive the query string: non-empty, without
      '&' or '#'. */
  lemma SearchIdPlain(t: Instant)
    requires ValidInstant(t)
    ensures ValueOk(SearchId(t)) && NoChar(SearchId(t), '#')
  {
    SearchIdShape(t);
  }

  /** Each returned URL carries the shared search id and gives back the ranked
      result's own URL. Its `_src` names the engine only for Bing and Startpage: the
      pool labels DuckDuckGo results "duckduckgo", which is not a key of
      `ENGINE_CODES` (that key is "ddg"), so DuckDuckGo, Google and Brave results
      are all tagged "u" and read back as "unknown". */
  lemma SearchResponseTracking(query: string, ddg: seq<Hit>, bing: seq<Hit>, startpage: seq<Hit>,
                               google: seq<Hit>, brave: seq<Hit>, n: int, t: Instant, i: nat)
    requires ValidInstant(t)
    requires Ranked(ddg, bing, startpage, google, brave, n, Original).Some?
    requires var ranked := Ranked(ddg, bing, startpage, google, brave, n, Original).value;
      i < |ranked| && forall j :: 0 <= j < |ranked| ==> Untracked(ranked[j].url)
    ensures var ranked := Ranked(ddg, bing, startpage, google, brave, n, Original).value;
      var r := SearchResponse(query, ddg, bing, startpage, google, brave, n, Original, SearchId(t));
      r.Some? && |r.value.results| == |ranked| && r.value.totalResults == |ranked|
      && ExtractTracking(r.value.results[i].url)
         == Some(Extracted(if ranked[i].source in {"bing", "startpage"} then ranked[i].source else "unknown",
                           SearchId(t), ranked[i].url))
  {
    var pool := Pool(ddg, bing, startpage, google, brave, n);
    var ranked := QualityRanked(pool, n);
    var sid := SearchId(t);
    SearchIdPlain(t);
    TrackedUrlAt(ranked, sid, i);
    SearchResponseIs(query, ddg, bing, startpage, google, brave, n, sid);
    RankedFromPool(pool, n, i);
    PoolSources(ddg, bing, startpage, google, brave, n, ranked[i]);
    assert EngineCode(ranked[i].source).Some? <==> ranked[i].source in {"bing", "startpage"};
  }

  /** The response for a ranking whose URLs all take the tracking parameters. */
  lemma SearchResponseIs(query: string, ddg: seq<Hit>, bing: seq<Hit>, startpage: seq<Hit>,
                         google: seq<Hit>, brave: seq<Hit>, n: int, sid: string)
    requires TrackedUrls(QualityRanked(Pool(ddg, bing, startpage, google, brave, n), n), AddTracking, sid).Some?
    ensures var ranked := QualityRanked(Pool(ddg, bing, startpage, google, brave, n), n);
      SearchResponse(query, ddg, bing, startpage, google, brave, n, Original, sid)
        == Some(Response(query, |ranked|,
                         [("DuckDuckGo", |ddg|), ("Bing", |bing|), ("Startpage", |startpage|),
                          ("Google", |google|), ("Brave", |brave|)],
                         Distribution(ranked), TrackedUrls(ranked, AddTracking, sid).value, false))
  {
  }

  /** The i-th rewritten URL gives back the i-th result's own URL and its engine. */
  lemma TrackedUrlAt(ranked: seq<Hit>, sid: string, i: nat)
    requires i < |ranked| && forall j :: 0 <= j < |ranked| ==> Untracked(ranked[j].url)
    requires ValueOk(sid) && NoChar(sid, '#')
    ensures TrackedUrls(ranked, AddTracking, sid).Some?
    ensures |TrackedUrls(ranked, AddTracking, sid).value| == |ranked|
    ensures ExtractTracking(TrackedUrls(ranked, AddTracking, sid).value[i].url)
      == Some(Extracted(if EngineCode(ranked[i].source).Some? then ranked[i].source else "unknown", sid,
                        ranked[i].url))
  {
    forall j | 0 <= j < |ranked|
      ensures AddTracking(ranked[j].url, ranked[j].source, sid).Some?
    {
      TrackingRoundTrip(ranked[j].url, ranked[j].source, sid);
    }
    assert AllTagged(ranked, AddTracking, sid);
    TrackedUrlsExact(ranked, AddTracking, sid);
    TrackingRoundTrip(ranked[i].url, ranked[i].source, sid);
  }

  /** A ranked result is one of the pool's. */
  lemma RankedFromPool(pool: seq<Hit>, n: int, i: nat)
    requires i < |QualityRanked(pool, n)|
    ensures QualityRanked(pool, n)[i] in pool
  {
    QualityRankedProperties(pool, n);
  }

  /** total_results is the number of ranked results, the engine distribution adds up
      to it, and `sources` reports the five input sizes. */
  lemma SearchResponseFacts(query: string, ddg: seq<Hit>, bing: seq<Hit>, startpage: seq<Hit>,
                            google: seq<Hit>, brave: seq<Hit>, n: int, strategy: Strategy, sid: string)
    requires SearchResponse(query, ddg, bing, startpage, google, brave, n, strategy, sid).Some?
    ensures var r := SearchResponse(query, ddg, bing, startpage, google, brave, n, strategy, sid).value;
      strategy == Original && r.totalResults == |r.results| && Sum(r.distribution) == r.totalResults
      && r.sources == [("DuckDuckGo", |ddg|), ("Bing", |bing|), ("Startpage", |startpage|),
                       ("Google", |google|), ("Brave", |brave|)]
      && (0 <= n ==> r.totalResults <= n) && !r.cached
  {
    var ranked := Ranked(ddg, bing, startpage, google, brave, n, strategy).value;
    TrackedUrlsExact(ranked, AddTracking, sid);
    DistributionCounts(ranked, "");
    QualityRankedProperties(Pool(ddg, bing, startpage, google, brave, n), n);
  }

  // ---- The response cache ----

  /** `str(n)` */
  function NatText(n: nat): (s: string)
    ensures |s| >= 1 && AllDigits(s)
  {
    if n < 10 then [DigitChar(n)] else NatText(n / 10) + [DigitChar(n % 10)]
  }

  function IntText(n: int): string
  {
    if n < 0 then "-" + NatText(-n) else NatText(n)
  }

  /** The text `get_cache_key` hashes: f"{query}:{num_results}". */
  function CacheKeyText(query: string, numResults: int): string
  {
    query + ":" + IntText(numResults)
  }

  lemma {:induction false} NatTextValue(n: nat)
    ensures DigitsValue(NatText(n)) == n
    decreases n
  {
    if n >= 10 {
      NatTextValue(n / 10);
      var s := NatText(n);
      assert s[..|s| - 1] == NatText(n / 10);
    }
  }

  lemma IntTextInjective(a: int, b: int)
    requires IntText(a) == IntText(b)
    ensures a == b
  {
    if a < 0 && b < 0 {
      assert NatText(-a) == IntText(a)[1..];
      assert NatText(-b) == IntText(b)[1..];
      NatTextValue(-a);
      NatTextValue(-b);
    } else if 0 <= a && 0 <= b {
      NatTextValue(a);
      NatTextValue(b);
    } else {
      IntTextHead(a);
      IntTextHead(b);
      assert false;
    }
  }

  /** A negative number's text starts with '-', any other with a digit. */
  lemma IntTextHead(n: int)
    ensures |IntText(n)| >= 1
    ensures IntText(n)[0] == '-' <==> n < 0
  {
    if n >= 0 {
      assert IsDigit(NatText(n)[0]);
    }
  }

  lemma IntTextNoColon(n: int)
    ensures NoChar(IntText(n), ':')
  {
    if n < 0 {
      assert forall i :: 0 < i < |IntText(n)| ==> IntText(n)[i] == NatText(-n)[i - 1];
    }
  }

  /** The ':' after the query is the last one of the key text. */
  lemma CacheKeyColons(q: string, n: int, k: int)
    ensures |q| < |CacheKeyText(q, n)| && CacheKeyText(q, n)[|q|] == ':'
    ensures |q| < k < |CacheKeyText(q, n)| ==> CacheKeyText(q, n)[k] != ':'
  {
    IntTextNoColon(n);
    if |q| < k < |CacheKeyText(q, n)| {
      assert CacheKeyText(q, n)[k] == IntText(n)[k - |q| - 1];
    }
  }

  /** Distinct (query, num_results) pairs never share a key text: the last ':' of the
      text separates the number, which has no ':' of its own. (Two texts can still
      share an MD5 digest; `hash` is not assumed injective.) */
  lemma CacheKeyTextInjective(q1: string, n1: int, q2: string, n2: int)
    requires CacheKeyText(q1, n1) == CacheKeyText(q2, n2)
    ensures q1 == q2 && n1 == n2
  {
    var s := CacheKeyText(q1, n1);
    var a := IntText(n1);
    var b := IntText(n2);
    IntTextNoColon(n1);
    IntTextNoColon(n2);
    if |q1| == |q2| {
      assert q1 == s[..|q1|] == q2;
      assert a == s[|q1| + 1..] == b;
      IntTextInjective(n1, n2);
    } else if |q1| < |q2| {
      CacheKeyColons(q1, n1, |q2|);
      CacheKeyColons(q2, n2, |q2|);
      assert false;
    } else {
      CacheKeyColons(q2, n2, |q1|);
      CacheKeyColons(q1, n1, |q1|);
      assert false;
    }
  }

  /** What the cache holds for a key: the response dictionary (`search_web`), or its
      JSON text (`search_web_fallback`). */
  datatype Cached = AsDict(response: Response) | AsJson(response: Response)

  /** What `get_cached_search_result` gives: a miss, the cached response marked as
      cached, or the TypeError of assigning into a cached JSON string. */
  datatype Served = Miss | Found(response: Response) | TypeError
  {
    /** What the caller returns on a hit; None for a miss or the TypeError. */
    function Answer(): Option<Response>
    {
      if Found? then Some(response) else None
    }
  }

  function ServedFrom(v: Option<Cached>): Served
  {
    match v
    case None => Miss
    case Some(AsDict(r)) => Found(r.(cached := true))
    case Some(AsJson(_)) => TypeError
  }

  method GetCachedSearchResult(cache: LruCache<Cached>, hash: string -> string, query: string, numResults: int,
                               now: real)
    returns (served: Served)
    requires cache.Valid()
    modifies cache
    ensures cache.Valid()
    ensures served == ServedFrom(Lookup(old(cache.entries), hash(CacheKeyText(query, numResults)), cache.ttl, now))
    ensures cache.entries == AfterGet(old(cache.entries), hash(CacheKeyText(query, numResults)), cache.ttl, now)
    ensures cache.order == OrderAfterGet(old(cache.order), old(cache.entries), hash(CacheKeyText(query, numResults)),
                                         cache.ttl, now)
  {
    var cacheKey := hash(CacheKeyText(query, numResults));
    var cachedResult := cache.Get(cacheKey, now);
    served := ServedFrom(cachedResult);
  }

  /** `cache_search_result`; `raised` is the KeyError of a cache whose max_size is not
      positive. */
  method CacheSearchResult(cache: LruCache<Cached>, hash: string -> string, query: string, numResults: int,
                           data: Cached, now: real)
    returns (raised: bool)
    requires cache.Valid()
    modifies cache
    ensures cache.Valid()
    ensures raised <==> cache.maxSize <= 0
    ensures raised ==> cache.order == [] && cache.entries == map[]
    ensures !raised ==> var key := hash(CacheKeyText(query, numResults));
      cache.order == SetOrder(old(cache.order), cache.maxSize, key)
      && cache.entries == SetEntries(old(cache.order), old(cache.entries), cache.maxSize, key, data, now)
  {
    raised := cache.Set(hash(CacheKeyText(query, numResults)), data, now);
  }

  /** A stored response dictionary is served again, marked as cached, for `ttl`
      seconds; a stored JSON text makes the lookup raise instead. */
  lemma StoredResponseServed(m: map<string, Entry<Cached>>, key: string, data: Cached, stored: real,
                             ttl: int, now: real)
    requires stored <= now <= stored + ttl as real
    ensures ServedFrom(Lookup(m[key := Entry(data, stored)], key, ttl, now))
      == match data
         case AsDict(r) => Found(r.(cached := true))
         case AsJson(_) => TypeError
  {
    LookupAfterSet(m, key, data, stored, ttl, now);
  }
}
