// The older single-file server (the root server.py): its first-wins URL
// de-duplication, its `search_web` over the TTL-only `SimpleCache`, and the way
// `fetch_multiple_pages` collects the workers' answers. The engines' answers, the
// page fetches, the clock, the ISO timestamp text and MD5 are parameters.

module LegacyServer {
  import opened Base
  import opened Results
  import opened Deduplication
  import opened Caches
  import opened Content
  import opened Common
  import Search

  // ---- deduplicate_results ----

  /** The exact URL of a result, the only key the older server compares. */
  function RawUrl(h: Hit): string
  {
    h.url
  }

  /** The greedy filter with the exact URL as its single key: a result is kept unless
      a result kept before it has the same URL. */
  function FirstByUrl(s: seq<Hit>): seq<Hit>
  {
    KeepFresh(s, RawUrl, RawUrl)
  }

  /** `deduplicate_results(all_results, num_results)`. */
  function UniqueResults(all: seq<Hit>, n: int): seq<Hit>
  {
    SliceTo(FirstByUrl(all), n)
  }

  /** The URLs seen: the URLs of the kept results are the URLs of the input, and
      there are as many kept results as distinct URLs. */
  lemma {:induction false} FirstByUrlKeys(s: seq<Hit>)
    ensures KeysOf(FirstByUrl(s), RawUrl) == KeysOf(s, RawUrl)
    ensures |FirstByUrl(s)| == |KeysOf(s, RawUrl)|
    decreases |s|
  {
    if s != [] {
      var s' := s[..|s| - 1];
      var x := s[|s| - 1];
      var p := FirstByUrl(s');
      FirstByUrlKeys(s');
      assert s == s' + [x];
      KeysAppend(s', x, RawUrl);
      KeysAppend(p, x, RawUrl);
      if RawUrl(x) !in KeysOf(s', RawUrl) {
        assert |KeysOf(s', RawUrl) + {RawUrl(x)}| == |KeysOf(s', RawUrl)| + 1;
      }
    }
  }

  /** Every first occurrence of a URL is kept. */
  lemma {:induction false} FirstByUrlFirsts(s: seq<Hit>)
    ensures forall m :: 0 <= m < |s| && (forall j :: 0 <= j < m ==> s[j].url != s[m].url) ==> s[m] in FirstByUrl(s)
    decreases |s|
  {
    if s != [] {
      var s' := s[..|s| - 1];
      var x := s[|s| - 1];
      var p := FirstByUrl(s');
      FirstByUrlFirsts(s');
      FirstByUrlKeys(s');
      assert forall y :: y in p ==> y in FirstByUrl(s);
      forall m | 0 <= m < |s| && (forall j :: 0 <= j < m ==> s[j].url != s[m].url)
        ensures s[m] in FirstByUrl(s)
      {
        if m < |s'| {
          assert s'[m] == s[m];
          assert forall j :: 0 <= j < m ==> s'[j].url != s'[m].url;
        } else {
          assert forall j :: 0 <= j < |s'| ==> s'[j].url != RawUrl(x);
          assert RawUrl(x) !in KeysOf(s', RawUrl);
        }
      }
    }
  }

  /** The de-duplicated results: no URL twice, drawn in order from the input, every
      first occurrence of a URL kept before the slice, and as many results as there
      are distinct URLs, up to num_results. */
  lemma UniqueResultsProperties(all: seq<Hit>, n: int)
    ensures var r := UniqueResults(all, n);
      DistinctBy(r, RawUrl)
      && IsSubseq(r, all)
      && (0 <= n ==> |r| == if n < |KeysOf(all, RawUrl)| then n else |KeysOf(all, RawUrl)|)
      && (|KeysOf(all, RawUrl)| <= n ==> r == FirstByUrl(all))
      && (forall m :: 0 <= m < |all| && (forall j :: 0 <= j < m ==> all[j].url != all[m].url)
            ==> all[m] in FirstByUrl(all))
  {
    var kept := FirstByUrl(all);
    var r := UniqueResults(all, n);
    FirstByUrlKeys(all);
    FirstByUrlFirsts(all);
    KeepFreshDistinct(all, RawUrl, RawUrl);
    KeepFreshSubseq(all, RawUrl, RawUrl);
    PrefixSubseq(kept, |r|);
    SubseqTrans(r, kept, all);
    assert forall i :: 0 <= i < |r| ==> r[i] == kept[i];
  }

  /** The loop of `deduplicate_results`, with the `seen_urls` set. */
  method DeduplicateResults(allResults: seq<Hit>, numResults: int) returns (r: seq<Hit>)
    ensures r == UniqueResults(allResults, numResults)
  {
    var seenUrls: set<string> := {};
    var uniqueResults: seq<Hit> := [];
    var i := 0;
    while i < |allResults|
      invariant 0 <= i <= |allResults|
      invariant uniqueResults == FirstByUrl(allResults[..i])
      invariant seenUrls == KeysOf(uniqueResults, RawUrl)
    {
      var result := allResults[i];
      KeepFreshStep(allResults, i, RawUrl, RawUrl);
      if result.url !in seenUrls {
        KeysAppend(uniqueResults, result, RawUrl);
        seenUrls := seenUrls + {result.url};
        uniqueResults := uniqueResults + [result];
      }
      i := i + 1;
    }
    assert allResults[..i] == allResults;
    r := SliceTo(uniqueResults, numResults);
  }

  // ---- search_web ----

  /** The dictionary the older `search_web` returns and caches. `sources` holds the
      DuckDuckGo, Bing and Startpage counts in that order. */
  datatype LegacyResponse = LegacyResponse(query: string, totalResults: int, sources: seq<(string, int)>,
                                           results: seq<Hit>, cached: bool, timestamp: string)

  /** The response `search_web` builds for the engines' answers: the zero-count
      dictionary when nothing survives de-duplication, otherwise the unique results
      with each engine's raw count. */
  function LegacyResponseFor(query: string, ddg: seq<Hit>, bing: seq<Hit>, startpage: seq<Hit>, n: int,
                             timestamp: string): (r: LegacyResponse)
    ensures r.query == query && !r.cached && r.timestamp == timestamp
    ensures r.results == UniqueResults(ddg + bing + startpage, n)
  {
    var unique := UniqueResults(ddg + bing + startpage, n);
    if unique == [] then
      LegacyResponse(query, 0, [("DuckDuckGo", 0), ("Bing", 0), ("Startpage", 0)], [], false, timestamp)
    else
      LegacyResponse(query, |unique|, [("DuckDuckGo", |ddg|), ("Bing", |bing|), ("Startpage", |startpage|)],
                     unique, false, timestamp)
  }

  /** What a fresh response reports: its count is its number of results, at most the
      clamped request, which is at most 20; its results have distinct URLs and come in order
      from the three engines' answers; the engine counts are reported only when some
      result survives. A negative request drops that many results from the end, as
      Python's slice does. */
  lemma LegacyResponseFacts(query: string, ddg: seq<Hit>, bing: seq<Hit>, startpage: seq<Hit>,
                            numResults: int, timestamp: string)
    ensures var n := Search.Clamp(numResults);
      var r := LegacyResponseFor(query, ddg, bing, startpage, n, timestamp);
      r.totalResults == |r.results|
      && (0 <= n ==> r.totalResults <= n <= 20)
      && DistinctBy(r.results, RawUrl) && IsSubseq(r.results, ddg + bing + startpage)
      && (r.results != [] ==> r.sources == [("DuckDuckGo", |ddg|), ("Bing", |bing|), ("Startpage", |startpage|)])
      && (r.results == [] ==> r.sources == [("DuckDuckGo", 0), ("Bing", 0), ("Startpage", 0)])
      && (ddg + bing + startpage == [] || n == 0 ==> r.results == [])
      && (ddg + bing + startpage != [] && n > 0 ==> r.results != [])
  {
    var n := Search.Clamp(numResults);
    var all := ddg + bing + startpage;
    var unique := UniqueResults(all, n);
    UniqueResultsProperties(all, n);
    if n > 0 && all != [] {
      assert all[0] in FirstByUrl(all);
    }
  }

  /** `search_web(search_query, num_results)` of the older server. `ddg`, `bing` and
      `startpage` are what its `parallel_search` returns for the clamped request
      (consulted only on a miss), `now` the clock and `timestamp` its ISO text. On a
      hit the cached dictionary itself gets `cached = True`, so the stored entry
      changes too and keeps its timestamp. */
  method LegacySearchWeb<C>(searchCache: SimpleCache<LegacyResponse>, contentCache: SimpleCache<C>,
                            hash: string -> string, query: string, numResults: int,
                            ddg: seq<Hit>, bing: seq<Hit>, startpage: seq<Hit>, now: real, timestamp: string)
    returns (response: LegacyResponse, searched: bool)
    requires searchCache != contentCache
    modifies searchCache, contentCache
    ensures var n := Search.Clamp(numResults);
      var key := hash(CacheKeyText(query, n));
      var hit := Lookup(old(searchCache.entries), key, searchCache.ttl, now);
      (searched <==> hit.None?)
      && (hit.Some? ==> response == hit.value.(cached := true)
                        && searchCache.entries == old(searchCache.entries)[key := Entry(response, old(searchCache.entries)[key].timestamp)]
                        && contentCache.entries == old(contentCache.entries))
      && (hit.None? ==>
            response == LegacyResponseFor(query, ddg, bing, startpage, n, timestamp)
            && contentCache.entries == Live(old(contentCache.entries), contentCache.ttl, now)
            && (response.results == [] ==> searchCache.entries == Live(old(searchCache.entries), searchCache.ttl, now))
            && (response.results != [] ==>
                  searchCache.entries == Live(old(searchCache.entries), searchCache.ttl, now)[key := Entry(response, now)]))
  {
    var n := Search.Clamp(numResults);
    var cacheKey := hash(CacheKeyText(query, n));
    var cachedResult := searchCache.Get(cacheKey, now);
    if cachedResult.Some? {
      response := cachedResult.value.(cached := true);
      var stored := searchCache.entries[cacheKey];
      searchCache.entries := searchCache.entries[cacheKey := Entry(response, stored.timestamp)];
      return response, false;
    }
    searched := true;
    GetKeepsLive(old(searchCache.entries), cacheKey, searchCache.ttl, now, cacheKey);
    searchCache.ClearExpired(now);
    contentCache.ClearExpired(now);
    var allResults := ddg + bing + startpage;
    var uniqueResults := DeduplicateResults(allResults, n);
    response := LegacyResponseFor(query, ddg, bing, startpage, n, timestamp);
    if uniqueResults == [] {
      return;
    }
    searchCache.Set(cacheKey, response, now);
  }

  /** A response stored by a search is served back, marked as cached, to the same
      query and clamped count for exactly the TTL; later it is gone. */
  lemma LegacyRepeatServed(m: map<string, Entry<LegacyResponse>>, hash: string -> string, query: string,
                           n: int, r: LegacyResponse, stored: real, ttl: int, later: real)
    requires stored <= later
    ensures var key := hash(CacheKeyText(query, n));
      var hit := Lookup(m[key := Entry(r, stored)], key, ttl, later);
      (hit.Some? <==> later <= stored + ttl as real)
      && (hit.Some? ==> hit.value.(cached := true) == r.(cached := true))
  {
    LookupAfterSet(m, hash(CacheKeyText(query, n)), r, stored, ttl, later);
  }

  // ---- fetch_multiple_pages ----

  const ThreadTimeoutMessage := "Thread timeout or failed to complete"

  /** `sum(1 for r in results if r.get("success", False))` */
  function Successes(rs: seq<ErrorResult>): nat
  {
    if rs == [] then 0 else (if rs[0].success then 1 else 0) + Successes(rs[1..])
  }

  /** `sum(1 for r in results if not r.get("success", False))` */
  function Failures(rs: seq<ErrorResult>): nat
  {
    if rs == [] then 0 else (if rs[0].success then 0 else 1) + Failures(rs[1..])
  }

  /** Every result is counted once, as a success or as a failure; no successes means
      every fetch failed and no failures means every fetch succeeded. */
  lemma {:induction false} CountsPartition(rs: seq<ErrorResult>)
    ensures Successes(rs) + Failures(rs) == |rs|
    ensures Successes(rs) == 0 <==> forall i :: 0 <= i < |rs| ==> !rs[i].success
    ensures Failures(rs) == 0 <==> forall i :: 0 <= i < |rs| ==> rs[i].success
    decreases |rs|
  {
    if rs != [] {
      CountsPartition(rs[1..]);
      assert forall i :: 1 <= i < |rs| ==> rs[i] == rs[1..][i - 1];
    }
  }

  /** The batch dictionary. */
  datatype Batch = Batch(totalUrls: int, successful: int, failed: int, timestamp: string,
                         results: seq<ErrorResult>)

  /** The collection loop of `fetch_multiple_pages`: `finished` holds the answers of
      the worker threads that had finished when their join timed out or returned,
      keyed by URL index; an index without an answer gets the timeout record. */
  method CollectResults(urls: seq<string>, finished: map<int, ErrorResult>, timestamp: string)
    returns (results: seq<ErrorResult>)
    ensures |results| == |urls|
    ensures forall i :: 0 <= i < |urls| && i in finished ==> results[i] == finished[i]
    ensures forall i :: 0 <= i < |urls| && i !in finished ==>
      results[i] == CreateErrorResult(urls[i], ThreadTimeoutMessage, "general", timestamp)
  {
    results := [];
    for i := 0 to |urls|
      invariant |results| == i
      invariant forall j :: 0 <= j < i && j in finished ==> results[j] == finished[j]
      invariant forall j :: 0 <= j < i && j !in finished ==>
        results[j] == CreateErrorResult(urls[j], ThreadTimeoutMessage, "general", timestamp)
    {
      if i in finished {
        results := results + [finished[i]];
      } else {
        results := results + [CreateErrorResult(urls[i], ThreadTimeoutMessage, "general", timestamp)];
      }
    }
  }

  /** `fetch_multiple_pages(url_list)` after the workers were joined: one result per
      URL in URL order, a failure for every missing worker, and counts that add up to
      the number of URLs. */
  method FetchMultiplePages(urls: seq<string>, finished: map<int, ErrorResult>, timestamp: string)
    returns (batch: Batch)
    ensures batch.totalUrls == |urls| == |batch.results| && batch.timestamp == timestamp
    ensures batch.successful + batch.failed == batch.totalUrls
    ensures batch.successful == Successes(batch.results) && batch.failed == Failures(batch.results)
    ensures forall i :: 0 <= i < |urls| && i in finished ==> batch.results[i] == finished[i]
    ensures forall i :: 0 <= i < |urls| && i !in finished ==>
      batch.results[i].url == urls[i] && !batch.results[i].success
      && batch.results[i].error == ThreadTimeoutMessage && batch.results[i].errorType == "general"
    ensures (forall i :: 0 <= i < |urls| ==> i !in finished) ==> batch.successful == 0
  {
    var results := CollectResults(urls, finished, timestamp);
    CountsPartition(results);
    batch := Batch(|urls|, Successes(results), Failures(results), timestamp, results);
  }
}
