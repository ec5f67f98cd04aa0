// The search entry points of core/search.py: `search_web` (clamp, cache first,
// sweep, search, format, store the dictionary) and `search_web_fallback` (cache
// first, fallback search, format, store the JSON text), and the slot defaults of
// `parallel_search`. The engines' answers are parameters; whether they were asked
// is the out-parameter `searched`. A returned None is an exception escaping.

module Search {
  import opened Base
  import opened Dates
  import opened Results
  import opened Tracking
  import opened Ranking
  import opened Caches
  import opened Fallback
  import opened Common

  /** The five lists `parallel_search` returns. */
  datatype EngineSlots = EngineSlots(ddg: seq<Hit>, bing: seq<Hit>, startpage: seq<Hit>,
                                     google: seq<Hit>, brave: seq<Hit>)

  /** `parallel_search`: the results dict starts with [] in every slot and a thread
      that has not finished within its join timeout leaves its slot at []. */
  function ParallelSearch(ddg: Option<seq<Hit>>, bing: Option<seq<Hit>>, startpage: Option<seq<Hit>>,
                          google: Option<seq<Hit>>, brave: Option<seq<Hit>>): (s: EngineSlots)
    ensures ddg.None? ==> s.ddg == []
    ensures bing.None? ==> s.bing == []
    ensures startpage.None? ==> s.startpage == []
    ensures google.None? ==> s.google == []
    ensures brave.None? ==> s.brave == []
    ensures ddg.Some? ==> s.ddg == ddg.value
    ensures bing.Some? ==> s.bing == bing.value
    ensures startpage.Some? ==> s.startpage == startpage.value
    ensures google.Some? ==> s.google == google.value
    ensures brave.Some? ==> s.brave == brave.value
  {
    EngineSlots(SlotOrEmpty(ddg), SlotOrEmpty(bing), SlotOrEmpty(startpage), SlotOrEmpty(google),
                SlotOrEmpty(brave))
  }

  /** `min(num_results, 20)` */
  function Clamp(numResults: int): (n: int)
    ensures n <= 20 && n <= numResults
    ensures n == numResults || n == 20
  {
    if numResults < 20 then numResults else 20
  }

  /** `search_web`. `slots` is what `parallel_search` would return for the clamped
      request; it is consulted only on a cache miss. */
  method SearchWeb(cache: LruCache<Cached>, hash: string -> string, query: string, numResults: int,
                   strategy: Strategy, slots: EngineSlots, now: real, clock: Instant)
    returns (response: Option<Response>, searched: bool)
    requires cache.Valid() && ValidInstant(clock)
    modifies cache
    ensures cache.Valid()
    ensures var key := hash(CacheKeyText(query, Clamp(numResults)));
      var hit := Lookup(old(cache.entries), key, cache.ttl, now);
      (searched <==> hit.None?)
      && (hit.Some? ==> response == ServedFrom(hit).Answer()
                        && cache.entries == AfterGet(old(cache.entries), key, cache.ttl, now)
                        && cache.order == OrderAfterGet(old(cache.order), old(cache.entries), key, cache.ttl, now))
      && (searched ==>
            var built := SearchResponse(query, slots.ddg, slots.bing, slots.startpage, slots.google, slots.brave,
                                        Clamp(numResults), strategy, SearchId(clock));
            var swept := Fresh(old(cache.order), old(cache.entries), cache.ttl, now);
            var live := Live(old(cache.entries), cache.ttl, now);
            (built.None? ==> response.None? && cache.order == swept && cache.entries == live)
            && (built.Some? && cache.maxSize >= 1 ==>
                  response == built
                  && cache.order == SetOrder(swept, cache.maxSize, key)
                  && cache.entries == SetEntries(swept, live, cache.maxSize, key, AsDict(built.value), now))
            && (built.Some? && cache.maxSize <= 0 ==>
                  response.None? && cache.order == [] && cache.entries == map[]))
  {
    var n := Clamp(numResults);
    var cachedResult := GetCachedSearchResult(cache, hash, query, n, now);
    match cachedResult {
      case Found(r) => return Some(r), false;
      case TypeError => return None, false;
      case Miss =>
    }
    FreshAfterMiss(old(cache.order), old(cache.entries), hash(CacheKeyText(query, n)), cache.ttl, now);
    var _ := cache.ClearExpired(now);
    searched := true;
    response := FormatSearchResponse(query, slots.ddg, slots.bing, slots.startpage, slots.google, slots.brave,
                                     n, strategy, clock);
    if response.None? {
      return;
    }
    var raised := CacheSearchResult(cache, hash, query, n, AsDict(response.value), now);
    if raised {
      response := None;
    }
  }

  /** `search_web_fallback`: no clamp, and the cache receives the JSON text. */
  method SearchWebFallback(cache: LruCache<Cached>, hash: string -> string, query: string, numResults: int,
                           strategy: Strategy, slots: Slots, now: real)
    returns (response: Option<Response>, searched: bool)
    requires cache.Valid()
    modifies cache
    ensures cache.Valid()
    ensures var key := hash(CacheKeyText(query, numResults));
      var hit := Lookup(old(cache.entries), key, cache.ttl, now);
      (searched <==> hit.None?)
      && (hit.Some? ==> response == ServedFrom(hit).Answer()
                        && cache.entries == AfterGet(old(cache.entries), key, cache.ttl, now)
                        && cache.order == OrderAfterGet(old(cache.order), old(cache.entries), key, cache.ttl, now))
      && (searched ==>
            var built := FallbackResponse(query, slots.googleStartpage, slots.bingDdg, slots.brave,
                                          numResults, strategy);
            var got := AfterGet(old(cache.entries), key, cache.ttl, now);
            var gotOrder := OrderAfterGet(old(cache.order), old(cache.entries), key, cache.ttl, now);
            (cache.maxSize >= 1 ==>
               response == Some(built)
               && cache.order == SetOrder(gotOrder, cache.maxSize, key)
               && cache.entries == SetEntries(gotOrder, got, cache.maxSize, key, AsJson(built), now))
            && (cache.maxSize <= 0 ==> response.None? && cache.order == [] && cache.entries == map[]))
  {
    var cachedResult := GetCachedSearchResult(cache, hash, query, numResults, now);
    match cachedResult {
      case Found(r) => return Some(r), false;
      case TypeError => return None, false;
      case Miss =>
    }
    searched := true;
    var responseJson := FormatFallbackSearchResponse(query, slots.googleStartpage, slots.bingDdg, slots.brave,
                                                     numResults, strategy);
    var raised := CacheSearchResult(cache, hash, query, numResults, AsJson(responseJson), now);
    response := if raised then None else Some(responseJson);
  }

  /** As written, the JSON text `search_web_fallback` stores makes a repeat of the
      same request within the TTL raise in `get_cached_search_result`. */
  lemma FallbackRepeatRaises(m: map<string, Entry<Cached>>, key: string, r: Response, stored: real,
                             ttl: int, now: real)
    requires stored <= now <= stored + ttl as real
    ensures ServedFrom(Lookup(m[key := Entry(AsJson(r), stored)], key, ttl, now)) == TypeError
  {
    StoredResponseServed(m, key, AsJson(r), stored, ttl, now);
  }

  /** `search_web_fallback` storing the response dictionary, as `search_web` does. */
  method SearchWebFallbackStoringDict(cache: LruCache<Cached>, hash: string -> string, query: string,
                                      numResults: int, strategy: Strategy, slots: Slots, now: real)
    returns (response: Option<Response>, searched: bool)
    requires cache.Valid()
    modifies cache
    ensures cache.Valid()
    ensures var key := hash(CacheKeyText(query, numResults));
      var hit := Lookup(old(cache.entries), key, cache.ttl, now);
      (searched <==> hit.None?)
      && (hit.Some? ==> response == ServedFrom(hit).Answer()
                        && cache.entries == AfterGet(old(cache.entries), key, cache.ttl, now)
                        && cache.order == OrderAfterGet(old(cache.order), old(cache.entries), key, cache.ttl, now))
      && (searched ==>
            var built := FallbackResponse(query, slots.googleStartpage, slots.bingDdg, slots.brave,
                                          numResults, strategy);
            var got := AfterGet(old(cache.entries), key, cache.ttl, now);
            var gotOrder := OrderAfterGet(old(cache.order), old(cache.entries), key, cache.ttl, now);
            (cache.maxSize >= 1 ==>
               response == Some(built)
               && cache.order == SetOrder(gotOrder, cache.maxSize, key)
               && cache.entries == SetEntries(gotOrder, got, cache.maxSize, key, AsDict(built), now))
            && (cache.maxSize <= 0 ==> response.None? && cache.order == [] && cache.entries == map[]))
  {
    var cachedResult := GetCachedSearchResult(cache, hash, query, numResults, now);
    match cachedResult {
      case Found(r) => return Some(r), false;
      case TypeError => return None, false;
      case Miss =>
    }
    searched := true;
    var responseJson := FormatFallbackSearchResponse(query, slots.googleStartpage, slots.bingDdg, slots.brave,
                                                     numResults, strategy);
    var raised := CacheSearchResult(cache, hash, query, numResults, AsDict(responseJson), now);
    response := if raised then None else Some(responseJson);
  }

  /** With the dictionary stored, a repeat of the request within the TTL is answered
      from the cache, marked as cached. */
  lemma StoredFallbackServed(m: map<string, Entry<Cached>>, key: string, r: Response, stored: real,
                             ttl: int, now: real)
    requires stored <= now <= stored + ttl as real
    ensures ServedFrom(Lookup(m[key := Entry(AsDict(r), stored)], key, ttl, now)).Answer() == Some(r.(cached := true))
  {
    StoredResponseServed(m, key, AsDict(r), stored, ttl, now);
  }
}
