# web-search: a verified model of the search core

web-search is a Model Context Protocol server that answers a web query by asking
several search engines at once. The engines are DuckDuckGo, Bing, Startpage,
Google and Brave. The server merges their answers into one ranked, deduplicated
list, caches each response for a few minutes and counts the paid API calls against
daily and monthly quotas. This project models that core in Dafny and proves what
each piece promises:

- **Ranking** (`Ranking`). Each engine's top candidates are scored from their
  position and from the length of their title and snippet. The pool is then
  deduplicated by URL, keeping the best score, and sorted. The 3-engine fallback
  variant filters and scores its own pool.
- **Deduplication.** `Deduplication` is the exact URL/title filter.
  `SmartDedup` is the "smart" pipeline: 3-gram Jaccard similarity, domain
  diversity, semantic deduplication and content-quality rescoring.
- **Caches** (`Caches`):
  - the TTL-only `SimpleCache`, which has two identical copies (utils/cache.py and
    the root server.py)
  - the LRU `LRUCache` with TTL, where the order of an `OrderedDict` is a
    sequence of keys kept beside a map
- **Quotas** (`Quotas`). There are three quota managers: the unified one, Google's
  daily one and Brave's monthly one. Each is a class over its stored record. A
  quota file is a parameter that is either readable or not.
- **Fallback search** (`Fallback`). A primary/fallback decision table, and the
  threaded and async fan-outs built on it.
- **Response assembly and the response cache** (`Common`, `Search`):
  - the two formatters
  - the cache key `f"{query}:{num_results}"` and its injectivity
  - `search_web` and `search_web_fallback`
- **Click tracking** (`Tracking`, over a model of `urlparse`/`parse_qs`/`urlencode`
  in `Urls`). A tag is added to a URL and read back. The search id is built from
  the time.
- **Connections** (`Connections`). The connection manager: registration,
  activity, statistics and the stale sweep.
- **Rotation** (`Rotation`, over calendar dates in `Dates`). `get_rotated_file`
  reuses a dated file or deletes the old ones and names a new one.
- **Page-fetch results** (`Content`). Error records, troubleshooting tips and the
  text normalisation after HTML parsing.
- **Legacy server** (`LegacyServer`). The root server.py's own `search_web`,
  `deduplicate_results` and batch-fetch result collection.

Clocks, engines, threads, file contents and hashing are parameters. A Python
exception that escapes is modelled as `None`, or as a `raised` flag on a method.

Several behaviours of the code are modelled exactly as written:

- Results whose `source` is "duckduckgo", "google" or "brave" are tagged with
  `_src=u`. The code table `ENGINE_CODES` is keyed "ddg", "bing" and
  "startpage".
- The smart strategy of `quality_first_ranking` raises, because it logs the unbound
  name `deduped`.
- A negative `num_results` slices from the end of the list, as Python slicing does.
- Brave's counter can pass its monthly limit, because `record_request` never
  checks the limit.

## Model

| member | source | states |
|---|---|---|
| Base.SliceTo | src/websearch/core/ranking.py:159 | `s[:k]` is a prefix of `s`; its length is min(k, len) for k ≥ 0 and max(0, len+k) for k < 0 |
| Base.Limit | src/websearch/utils/deduplication.py:26-28 | the loop that stops after n kept items yields the first min(n, len) items, and none when n ≤ 0 |
| Results.SortByScore | src/websearch/utils/deduplication.py:18-20 | sorting by quality_score descending is a permutation of its input (same length, same multiset) |
| Results.SortByScoreSorted | src/websearch/utils/deduplication.py:18-20 | the sorted list is in non-increasing score order |
| Results.SortByScoreStable | src/websearch/utils/deduplication.py:18-20 | the sort is stable: results of equal score keep their input order |
| Deduplication.DeduplicateResults | src/websearch/utils/deduplication.py:10-52 | the loop computes the specification `Deduplicated`; empty input or n ≤ 0 gives []; at most n results; ranks are 1..len |
| Deduplication.KeepUnseen | src/websearch/utils/deduplication.py:22-49 | the walk over the score-sorted results, with its seen-URL and seen-title sets, keeps exactly the results whose normalised URL and title are both new (the specification `KeepFresh`), stops at n kept results and numbers them 1..len |
| Deduplication.DeduplicatedProperties | src/websearch/utils/deduplication.py:14-50 | the result is sorted by score, has no two results with the same normalised URL or the same normalised title, is numbered 1..len, and is drawn in order from the score-sorted input |
| Deduplication.KeepFreshDistinct | src/websearch/utils/deduplication.py:40-45 | the kept results are pairwise distinct in both keys |
| Deduplication.KeepFreshSubseq | src/websearch/utils/deduplication.py:26-45 | the kept results are a subsequence of the input |
| Deduplication.KeepFreshCovers | src/websearch/utils/deduplication.py:40-42 | every input result shares its URL key or its title key with a kept result |
| Deduplication.KeepFreshPrefix | src/websearch/utils/deduplication.py:26-28 | what is kept from a prefix of the input is a prefix of what is kept from all of it, so stopping early loses nothing before the stop |
| Deduplication.Numbered | src/websearch/utils/deduplication.py:47-49 | each result gets rank = its 1-based position and is otherwise unchanged |
| Ranking.ContentBonus | src/websearch/core/ranking.py:176-188 | the title/snippet bonus lies in [-1, 1] |
| Ranking.QualityScore | src/websearch/core/ranking.py:170-190 | the score is at least 0.1, and for engine ranks up to 5 it is 10 − 2·(rank − 1) plus the content bonus |
| Ranking.PlaceDominatesContent | src/websearch/core/ranking.py:173-190 | a better engine rank never scores lower, whatever either result's content |
| Ranking.PrepareEngineResults | src/websearch/core/ranking.py:107-120 | at most candidates_per_engine results, each tagged with the engine as source and 1-based engine_rank, with the original URL and a score ≥ 0.1 |
| Ranking.PreparedSorted | src/websearch/core/ranking.py:112-119 | one engine's prepared candidates come in non-increasing score |
| Ranking.QualityRankedTooFew | src/websearch/core/ranking.py:105 | for num_results 0 or 1, `num_results // 2` leaves no candidates, so the pool and the ranking are empty |
| Ranking.DeduplicateByQuality | src/websearch/core/ranking.py:193-204 | the loop over the URL-keyed dict computes the specification `BestPerUrl` |
| Ranking.UpsertFacts | src/websearch/core/ranking.py:197-202 | one dict step keeps URLs distinct, replaces an entry only on a strictly higher score, and appends a new URL at the end |
| Ranking.BestPerUrlCovers | src/websearch/core/ranking.py:193-204 | the URLs are distinct, every input URL is represented, and every entry comes from the input |
| Ranking.BestPerUrlMax | src/websearch/core/ranking.py:199-202 | the kept entry has the highest score among the results with its URL |
| Ranking.BestPerUrlFirst | src/websearch/core/ranking.py:201 | the kept entry is the first one with that score: earlier copies of its URL score strictly less |
| Ranking.QualityFirstRanking | src/websearch/core/ranking.py:89-167 | the original strategy returns the ranked pool; the smart strategy raises |
| Ranking.QualityRankedProperties | src/websearch/core/ranking.py:155-159 | the ranking is sorted, has distinct URLs, holds at most n results (len + n when n < 0), is drawn from the pool, and keeps the best score per URL |
| Ranking.PrepareFallbackResults | src/websearch/core/ranking.py:23-37 | the loop computes the specification `FallbackPrepared` |
| Ranking.FallbackPreparedTagged | src/websearch/core/ranking.py:28-35 | each prepared result is a copy of an input with a URL and a title, tagged with the engine and with engine_rank = its input index + 1 |
| Ranking.FallbackPreparedOrdered | src/websearch/core/ranking.py:28-35 | engine ranks strictly increase along the prepared list |
| Ranking.FallbackPreparedComplete | src/websearch/core/ranking.py:29-35 | every input with a non-empty URL and title is prepared |
| Ranking.QualityFirstRankingFallback | src/websearch/core/ranking.py:15-86 | the method computes the specification `FallbackRanked` |
| Ranking.FallbackRankedProperties | src/websearch/core/ranking.py:58-83 | an empty pool gives []; the result is sorted and holds at most n; the original strategy numbers the results 1..len with distinct URL and title keys; the smart strategy keeps at most 2 per domain |
| Ranking.EngineDistribution | src/websearch/core/ranking.py:207-218 | the loop computes the specification `Distribution` |
| Ranking.DistributionInitial | src/websearch/core/ranking.py:209 | the counter starts at 0 for duckduckgo, bing and startpage and has no other key |
| Ranking.DistributionCounts | src/websearch/core/ranking.py:207-218 | the counts sum to the number of results; each tracked engine counts its results; "unknown" counts the rest and is present only when that count is non-zero; no other key appears |
| SmartDedup.BlankPunctuation | src/websearch/utils/smart_deduplication.py:19-20 | each character that is neither a word character nor whitespace becomes a space |
| SmartDedup.GramSimilarity | src/websearch/utils/smart_deduplication.py:36-44 | the set similarity lies in [0, 1] and is 0 for disjoint, not both empty, sets |
| SmartDedup.Jaccard | src/websearch/utils/smart_deduplication.py:13-44 | the similarity lies in [0, 1] and is 0 when either text is empty |
| SmartDedup.JaccardSymmetric | src/websearch/utils/smart_deduplication.py:13-44 | the similarity is symmetric |
| SmartDedup.JaccardShort | src/websearch/utils/smart_deduplication.py:22-23 | when a normalised text is shorter than 3 characters, the similarity is 1 for equal normalised texts and 0 otherwise |
| SmartDedup.JaccardSelf | src/websearch/utils/smart_deduplication.py:13-44 | a non-empty text is fully similar to itself |
| SmartDedup.JaccardShortVersusLong | src/websearch/utils/smart_deduplication.py:26-44 | a text of fewer than 3 words, whose gram set is its words, shares no gram with a text of 3 or more words |
| SmartDedup.ExtractDomain | src/websearch/utils/smart_deduplication.py:47-61 | the domain is the lower-cased netloc with a leading "www." removed, or the lower-cased input when there is no netloc or parsing fails |
| SmartDedup.ContentQuality | src/websearch/utils/smart_deduplication.py:64-92 | the rescored value is at most 10, at most score + 0.35, and at least min(score − 0.3, 10) |
| SmartDedup.ThinSnippetPenalty | src/websearch/utils/smart_deduplication.py:84-86 | a snippet under 20 characters costs at least 0.15 |
| SmartDedup.RichContentBonus | src/websearch/utils/smart_deduplication.py:74-92 | a long snippet with a colon and a long, not all-caps title earns exactly +0.35 |
| SmartDedup.EnforceDomainDiversity | src/websearch/utils/smart_deduplication.py:95-116 | the loop with its domain counter computes the specification `Diverse`; empty input gives [] |
| SmartDedup.DiverseKeepsEarliest | src/websearch/utils/smart_deduplication.py:105-111 | for every domain, the kept results of that domain are its first max_per_domain results in input order |
| SmartDedup.DiverseSubseq | src/websearch/utils/smart_deduplication.py:105-111 | the diverse list is a subsequence of the input |
| SmartDedup.SimilarSymmetric | src/websearch/utils/smart_deduplication.py:139-148 | the duplicate test on titles, and on snippets when present, is symmetric |
| SmartDedup.IsDuplicate | src/websearch/utils/smart_deduplication.py:132-155 | the inner loop answers whether the candidate is similar to some kept result |
| SmartDedup.SemanticDeduplication | src/websearch/utils/smart_deduplication.py:119-161 | the loop computes the specification `Semantic` |
| SmartDedup.SemanticSubseq | src/websearch/utils/smart_deduplication.py:126-158 | the semantically deduplicated list is a subsequence of the input |
| SmartDedup.SemanticKeepsFirst | src/websearch/utils/smart_deduplication.py:126-158 | the first input result is always kept, and kept first |
| SmartDedup.SemanticPairwise | src/websearch/utils/smart_deduplication.py:126-158 | no kept result is similar to an earlier kept result |
| SmartDedup.SemanticNoTwoSimilar | src/websearch/utils/smart_deduplication.py:126-158 | at the threshold, no two kept results are similar in either direction |
| SmartDedup.SemanticCovers | src/websearch/utils/smart_deduplication.py:150-158 | each input result is either kept or similar to a result kept before it |
| SmartDedup.Rescored | src/websearch/utils/smart_deduplication.py:210-211 | each result's quality_score is replaced by its content quality, and nothing else changes |
| SmartDedup.ProcessResults | src/websearch/utils/smart_deduplication.py:200-233 | the method computes the specification `Processed` |
| SmartDedup.ProcessedProperties | src/websearch/utils/smart_deduplication.py:200-233 | the output is no longer than the input, is sorted, is a subsequence of the rescored and sorted input, holds at most max_per_domain results per domain, and has no two results similar in either direction |
| Caches.LookupAfterSet | src/websearch/utils/cache.py:20-32 | a value just stored is returned while now ≤ stored + ttl and is expired after that |
| Caches.LookupOtherKey | src/websearch/utils/cache.py:30-32 | storing one key does not change the lookup of another |
| Caches.GetKeepsLive | server.py:81-88 | a get only removes an expired entry, so the live entries and every other lookup are unchanged |
| Caches.LiveExact | server.py:94-100 | after clear_expired a key is present exactly when it was present and not expired, with its entry unchanged; clearing twice is clearing once; lookups are unchanged |
| Caches.AllExpiredClears | src/websearch/utils/cache.py:34-40 | when every entry is older than the TTL, clear_expired empties the cache |
| Caches.SimpleCache.constructor | src/websearch/utils/cache.py:12-15 | a new cache is empty with the given TTL |
| Caches.SimpleCache.Get | src/websearch/utils/cache.py:20-28 | returns the value of a non-expired entry; an expired entry is deleted and None returned |
| Caches.SimpleCache.Set | src/websearch/utils/cache.py:30-32 | stores the value with the current time |
| Caches.SimpleCache.ClearExpired | src/websearch/utils/cache.py:34-40 | leaves exactly the live entries |
| Caches.Evicted | src/websearch/utils/advanced_cache.py:53-54 | the eviction loop drops the oldest keys until fewer than max_size remain, leaving max_size − 1 when full and nothing when max_size ≤ 0 |
| Caches.SetOrderFacts | src/websearch/utils/advanced_cache.py:50-57 | after a set, at most max_size distinct keys remain, the key is present, a new key is most recent, and re-setting a present key in a non-full cache keeps the order |
| Caches.StaleFresh | src/websearch/utils/advanced_cache.py:59-65 | the expired keys are exactly the present, expired ones; expired and fresh keys partition the order; dropping the expired leaves the fresh |
| Caches.CardOfKeys | src/websearch/utils/advanced_cache.py:71 | the number of entries equals the length of the key order |
| Caches.LruCache.constructor | src/websearch/utils/advanced_cache.py:14-19 | a new cache is empty with the given max_size, TTL and compression flag |
| Caches.LruCache.Get | src/websearch/utils/advanced_cache.py:38-48 | a hit returns the value and moves the key to the end; an expired key is deleted; a missing key changes nothing |
| Caches.LruCache.EvictWhileFull | src/websearch/utils/advanced_cache.py:53-54 | pops the oldest entries while full, and raises when max_size ≤ 0 after emptying the cache |
| Caches.LruCache.PopOldest | src/websearch/utils/advanced_cache.py:54 | `popitem(last=False)` removes the first key and its entry |
| Caches.LruCache.Store | src/websearch/utils/advanced_cache.py:56-57 | assignment keeps a present key's place and appends a new key |
| Caches.LruCache.Set | src/websearch/utils/advanced_cache.py:50-57 | raises when max_size ≤ 0; otherwise evicts the oldest keys, then stores the entry at its place |
| Caches.LruCache.ExpiredKeys | src/websearch/utils/advanced_cache.py:62 | lists the expired keys in cache order |
| Caches.LruCache.Delete | src/websearch/utils/advanced_cache.py:47 | removes one key and its entry |
| Caches.LruCache.DeleteKeys | src/websearch/utils/advanced_cache.py:63-64 | removes the listed keys and their entries |
| Caches.LruCache.ClearExpired | src/websearch/utils/advanced_cache.py:59-65 | leaves the live entries in their order and returns how many were removed |
| Caches.LruCache.GetStats | src/websearch/utils/advanced_cache.py:67-75 | the size is the number of entries; the hit rate is 0 |
| Quotas.Loaded | src/websearch/utils/unified_quota.py:33-47 | a readable file gives its record; a missing or unreadable file gives the period's empty record with used 0 |
| Quotas.Current | src/websearch/utils/unified_quota.py:79-87 | the record after the period check: used is reset to 0 on a new period and is otherwise unchanged |
| Quotas.Bumped | src/websearch/utils/unified_quota.py:97-106 | after recording, used is 1 in a new period and is otherwise one more |
| Quotas.BumpedTimesCount | src/websearch/utils/unified_quota.py:89-106 | n recordings add n, counting from 0 in a new period |
| Quotas.ExhaustedAfterLimit | src/websearch/utils/unified_quota.py:70-106 | after `limit` recordings in a period, no further request is allowed |
| Quotas.NewPeriodAllows | src/websearch/utils/unified_quota.py:79-87 | at the start of a period a request is allowed exactly when the limit is positive |
| Quotas.NewDay | src/websearch/utils/quota.py:37-40 | a record stamped with another date starts a new day |
| Quotas.NewMonth | src/websearch/utils/brave_quota.py:41-44 | a record stamped with a month starts a new period exactly when that month differs from the current one |
| Quotas.UnifiedQuotaManager.constructor | src/websearch/utils/unified_quota.py:19-31 | holds the Google daily and Brave monthly limits and the stored files |
| Quotas.UnifiedQuotaManager.SaveQuota | src/websearch/utils/unified_quota.py:49-56 | writes the service's file when the write succeeds |
| Quotas.UnifiedQuotaManager.CanMakeRequest | src/websearch/utils/unified_quota.py:70-87 | allows unknown services; otherwise allows when the period's count is under the limit, saving a reset record on a new period |
| Quotas.UnifiedQuotaManager.RecordRequest | src/websearch/utils/unified_quota.py:89-108 | saves the bumped record; unknown services are untouched |
| Quotas.UnifiedQuotaManager.GetUsage | src/websearch/utils/unified_quota.py:110-127 | reports used, limit and remaining = limit − used for the current period, with zeros for unknown services |
| Quotas.Remaining | src/websearch/utils/quota.py:67-71 | remaining is never negative, is the full limit on a new day, and is at most the limit |
| Quotas.RemainingCountsDown | src/websearch/utils/quota.py:53-71 | after n recordings on a new day, remaining is max(0, 100 − n) |
| Quotas.GoogleQuotaManager.constructor | src/websearch/utils/quota.py:15-27 | loads the record from the file, or the empty daily record |
| Quotas.GoogleQuotaManager.SaveQuota | src/websearch/utils/quota.py:29-35 | writes the record when the write succeeds |
| Quotas.GoogleQuotaManager.CanMakeRequest | src/websearch/utils/quota.py:42-51 | resets on a new day, saving it, and allows while used < 100 |
| Quotas.GoogleQuotaManager.RecordRequest | src/websearch/utils/quota.py:53-65 | bumps the count and saves |
| Quotas.GoogleQuotaManager.GetRemaining | src/websearch/utils/quota.py:67-71 | returns the specification `Remaining` |
| Quotas.BraveQuotaManager.constructor | src/websearch/utils/brave_quota.py:18-31 | loads the record from the file, or the empty monthly record |
| Quotas.BraveQuotaManager.SaveQuota | src/websearch/utils/brave_quota.py:33-39 | writes the record when the write succeeds |
| Quotas.BraveQuotaManager.CanMakeRequest | src/websearch/utils/brave_quota.py:46-55 | resets on a new month, saving it, and allows while used < 2000 |
| Quotas.BraveQuotaManager.RecordRequest | src/websearch/utils/brave_quota.py:57-69 | bumps the count and saves |
| Quotas.BraveQuotaManager.GetUsage | src/websearch/utils/brave_quota.py:71-78 | reports used, the limit, limit − used and the stored month |
| Quotas.BraveOverdraws | src/websearch/utils/brave_quota.py:57-78 | 2001 recordings in one month give used 2001 and remaining −1, since recording does not check the limit |
| Fallback.SearchWithFallbackTable | src/websearch/core/fallback_search.py:14-31 | the primary's non-empty results are kept; otherwise the fallback is called, and called a second time exactly when the primary returned [] and the fallback raised; any non-empty answer comes from one of the calls |
| Fallback.FallbackWhenPrimaryFails | src/websearch/core/fallback_search.py:18-28 | with a fallback that succeeds, the answer is the primary's non-empty results or else the fallback's |
| Fallback.FallbackParallelSearch | src/websearch/core/fallback_search.py:34-70 | a slot whose thread did not finish stays [] |
| Fallback.AsyncFallbackParallelSearch | src/websearch/core/async_fallback_search.py:35-62 | a task that raised yields [] in its slot |
| Fallback.AsyncMatchesThreaded | src/websearch/core/async_fallback_search.py:15-32 | the async fan-out gives the same three slots as the threaded one when every task finishes |
| Common.CountSources | src/websearch/core/common.py:45-49 | the loop computes the specification `SourceCounts` |
| Common.SourceCountsExact | src/websearch/core/common.py:46-49 | the counts sum to the number of results, and each source's count is its number of results, absent when 0 |
| Common.FormatFallbackSearchResponse | src/websearch/core/common.py:26-64 | computes the specification `FallbackResponse` |
| Common.FallbackResponseFacts | src/websearch/core/common.py:41-62 | total_results is the number of results and the distribution's sum; the three sources carry the input lengths; at most n results; not cached |
| Common.AddTrackingToResults | src/websearch/core/common.py:105-110 | the loop computes the specification `TrackedUrls` |
| Common.TrackedUrlsExact | src/websearch/core/common.py:105-110 | tagging succeeds exactly when every URL can be tagged, and then each result's URL, and only its URL, is replaced by its tagged form |
| Common.TrackedUrlsFails | src/websearch/core/common.py:106-110 | a failure on any result makes the whole tagging fail |
| Common.PoolSources | src/websearch/core/ranking.py:123-127 | every pooled candidate's source is one of the five engine names |
| Common.SearchIdPlain | src/websearch/utils/tracking.py:132-134 | a search id is a non-empty query value with no '&' and no '#' |
| Common.FormatSearchResponse | src/websearch/core/common.py:67-131 | computes the specification `SearchResponse` with the search id of the clock |
| Common.SearchResponseFacts | src/websearch/core/common.py:116-129 | a response exists only for the original strategy; total_results is the number of results and the distribution's sum; the five sources carry the input lengths; at most n results; not cached |
| Common.SearchResponseTracking | src/websearch/core/common.py:83-110 | each returned URL reads back as the ranked URL with the search id, attributed to bing or startpage, and to "unknown" for the other engines |
| Common.NatTextValue | src/websearch/core/common.py:136 | the decimal text of a number reads back as that number |
| Common.IntTextInjective | src/websearch/core/common.py:136 | different integers print differently |
| Common.CacheKeyTextInjective | src/websearch/core/common.py:136 | different (query, num_results) pairs give different key texts |
| Common.GetCachedSearchResult | src/websearch/core/common.py:134-144 | a live stored dictionary is served marked cached; a stored JSON text raises; a miss gives nothing |
| Common.CacheSearchResult | src/websearch/core/common.py:147-153 | a cache with max_size ≤ 0 raises and ends empty; otherwise the new order is the eviction loop's survivors with the key placed, and the new entries drop exactly the evicted keys and hold the response under the hashed key with the current time |
| Common.StoredResponseServed | src/websearch/core/common.py:134-153 | within the TTL a stored dictionary is served back marked cached, and a stored JSON text raises |
| Search.ParallelSearch | src/websearch/core/search.py:18-47 | each slot holds its engine's results, or [] when its thread did not finish |
| Search.Clamp | src/websearch/core/search.py:95 | `min(num_results, 20)` is at most 20 and at most the request, and equals one of them |
| Search.SearchWeb | src/websearch/core/search.py:88-125 | a cache hit is answered without searching, with the key moved to the newest end; a miss leaves the cache swept (the unexpired entries of the old cache, in order), builds the response, and stores its dictionary under the hashed key of the clamped request by the cache's `set`; a cache with max_size ≤ 0 raises and ends empty |
| Search.SearchWebFallback | src/websearch/core/search.py:50-85 | a hit is answered from the cache; a miss, without a sweep, builds the fallback response without clamping and stores its JSON text by the cache's `set` on the cache the lookup left; the whole new cache is stated |
| Search.FallbackRepeatRaises | src/websearch/core/search.py:78 | a stored JSON text makes a repeat of the request within the TTL raise |
| Search.SearchWebFallbackStoringDict | src/websearch/core/search.py:50-85 | the fallback search storing the response dictionary instead, with the same new cache otherwise |
| Search.StoredFallbackServed | src/websearch/core/common.py:139-142 | with the dictionary stored, a repeat within the TTL is served, marked cached |
| Tracking.EngineCode | src/websearch/utils/tracking.py:13 | exactly ddg, bing and startpage have a code |
| Tracking.EngineCodesInvert | src/websearch/utils/tracking.py:76-81 | the reverse map gives back the engine of each code, and "unknown" for any other code |
| Tracking.AddTracking | src/websearch/utils/tracking.py:56-67 | tagging succeeds exactly when the URL parses |
| Tracking.ExtractTracking | src/websearch/utils/tracking.py:70-87 | extraction succeeds exactly when the URL parses, and the engine is ddg, bing, startpage or unknown |
| Tracking.AddTrackingIs | src/websearch/utils/tracking.py:58-67 | the tagged URL is the original with `_src` and `_sid` appended to its parsed query |
| Tracking.ExtractIs | src/websearch/utils/tracking.py:72-87 | a query ending in `_src` and `_sid` gives their engine and id and the URL without them |
| Tracking.TrackingRoundTrip | src/websearch/utils/tracking.py:56-87 | extracting from a tagged URL gives back the engine (or "unknown"), the search id and the original URL |
| Tracking.SearchIdParts | src/websearch/utils/tracking.py:132-134 | the id is YYYYMMDD_HHMMSS_mmm, with the microseconds truncated to milliseconds |
| Tracking.SearchIdShape | src/websearch/utils/tracking.py:132-134 | the id has 19 characters: digits, with '_' at positions 8 and 15 |
| Urls.QueryRoundTrip | src/websearch/utils/tracking.py:59-66 | `parse_qs(urlencode(d, doseq=True))` gives back every well-formed dictionary |
| Urls.ParseQsWellFormed | src/websearch/utils/tracking.py:59 | `parse_qs` always yields a well-formed dictionary |
| Urls.ReplaceQuery | src/websearch/utils/tracking.py:67 | replacing the query of a parsed URL and unparsing it parses back to the replaced parts |
| Urls.PopKeyAfter | src/websearch/utils/tracking.py:76-77 | popping a key appended after the others gives its values and the rest of the dictionary |
| Dates.FormatDate | src/websearch/utils/rotation.py:35 | `%Y-%m-%d` gives 10 characters with dashes at positions 4 and 7 |
| Dates.FormatMonth | src/websearch/utils/brave_quota.py:43 | `%Y-%m` gives 7 characters with a dash at position 4 |
| Dates.ParseDate | src/websearch/utils/rotation.py:20 | a date that `strptime` accepts is a valid calendar date |
| Dates.ParseFormat | src/websearch/utils/rotation.py:20-35 | parsing a formatted date gives it back |
| Dates.NewYear | src/websearch/utils/rotation.py:23 | the day count runs on from 31 December to 1 January |
| Dates.NextMonth | src/websearch/utils/rotation.py:23 | the day count runs on from the last day of a month to the first of the next |
| Text.Strip | src/websearch/utils/content.py:19-20 | the stripped text has no whitespace at either end, is empty exactly for all-whitespace text, and adds no double space |
| Text.Lower | src/websearch/utils/smart_deduplication.py:19 | lower-cases each character, and only ASCII letters |
| Text.Words | src/websearch/utils/smart_deduplication.py:27 | `split()` gives whitespace-free words, and none exactly for all-whitespace text |
| Connections.StaleIdsExact | src/websearch/connection_manager.py:105-107 | the stale list holds exactly the connections idle for longer than the timeout, each once |
| Connections.MaxRealIsMax | src/websearch/connection_manager.py:88 | the oldest age is one of the ages and is at least every other |
| Connections.MeanAtMostMax | src/websearch/connection_manager.py:87-88 | the average duration is at most the oldest age |
| Connections.RegisterSize | src/websearch/connection_manager.py:52 | registering a new id adds one entry; re-registering an id replaces it |
| Connections.ConnectionManager.constructor | src/websearch/connection_manager.py:16-23 | a manager starts with no connections and zero counters |
| Connections.ConnectionManager.Register | src/websearch/connection_manager.py:46-62 | refuses at the limit with nothing changed; otherwise records the connection and increments both counters |
| Connections.ConnectionManager.UpdateActivity | src/websearch/connection_manager.py:64-68 | a known connection gets the new activity time and one more request; an unknown id changes nothing |
| Connections.ConnectionManager.Unregister | src/websearch/connection_manager.py:70-76 | a known connection is removed and the active count decreases; an unknown id changes nothing |
| Connections.ConnectionManager.GetStats | src/websearch/connection_manager.py:78-89 | reports the counters, and the mean and the maximum of the connections' ages, or 0 with none |
| Connections.ConnectionManager.CollectStale | src/websearch/connection_manager.py:102-107 | lists the stale connections in insertion order |
| Connections.ConnectionManager.UnregisterEach | src/websearch/connection_manager.py:109-111 | unregistering distinct known ids removes exactly them and lowers the count by their number |
| Connections.ConnectionManager.CleanupStale | src/websearch/connection_manager.py:100-111 | exactly the stale connections are removed, and the count drops by their number |
| Connections.ConnectionManager.CleanupAll | src/websearch/connection_manager.py:113-117 | every connection is removed, and the count drops by their number |
| Connections.ManagedConnection | src/websearch/connection_manager.py:122-131 | raises at the limit with the registry and both counters unchanged; otherwise the connection is registered for the body and is gone afterwards, with one more connection served: a new id leaves the registry as it was, and an id that was already active is removed with its old record |
| Rotation.LexTransitive | src/websearch/utils/rotation.py:13 | Python's string order is transitive |
| Rotation.LatestUnique | src/websearch/utils/rotation.py:13-16 | a non-empty listing has exactly one last name in sorted order |
| Rotation.Latest | src/websearch/utils/rotation.py:13-16 | the method finds `sorted(existing)[-1]` |
| Rotation.RFind | src/websearch/utils/rotation.py:19 | finds the last occurrence of the separator, or −1 |
| Rotation.NewNameDate | src/websearch/utils/rotation.py:12-36 | a freshly named file matches the glob pattern and, for a base path with a suffix, parses back to its date |
| Rotation.Directory.constructor | src/websearch/utils/rotation.py:13 | the directory holds the given names |
| Rotation.Directory.Unlink | src/websearch/utils/rotation.py:29 | removes one file |
| Rotation.UnlinkAll | src/websearch/utils/rotation.py:28-30 | removes exactly the matching files |
| Rotation.GetRotatedFile | src/websearch/utils/rotation.py:10-38 | with no match, or an unparseable latest name, a new file is named; the latest file is reused while it is younger than rotation_days; otherwise every matching file is deleted and a new one is named |
| Content.TipsTable | src/websearch/utils/content.py:40-51 | an unknown error type gets the general tip, and the six known types get pairwise different tips |
| Content.CreateErrorResult | src/websearch/utils/content.py:24-37 | the record is a failure with no content, length 0, not truncated or cached, carrying the URL, message, type, tip and timestamp |
| Content.SplitLines | src/websearch/utils/content.py:19 | splitting whitespace-only text yields whitespace-only lines |
| Content.SplitDoubleSpace | src/websearch/utils/content.py:20 | no piece of `split("  ")` holds a double space, and "" splits to [""] |
| Content.ChunksTidy | src/websearch/utils/content.py:19-21 | every non-empty chunk is stripped and has no double space |
| Content.JoinTidy | src/websearch/utils/content.py:21 | joining tidy chunks with single spaces gives a tidy text, or "" for no chunks |
| Content.NormalizeTidy | src/websearch/utils/content.py:9-21 | the extracted text is empty or has no surrounding whitespace and no double space |
| Content.BlankText | src/websearch/utils/content.py:9-21 | whitespace-only page text gives "" |
| LegacyServer.DeduplicateResults | server.py:506-518 | the loop with its set of seen URLs computes the specification `UniqueResults` |
| LegacyServer.FirstByUrlKeys | server.py:510-516 | the kept results carry every input URL, as many results as distinct URLs |
| LegacyServer.FirstByUrlFirsts | server.py:510-516 | every first occurrence of a URL is kept |
| LegacyServer.UniqueResultsProperties | server.py:506-518 | URLs are distinct, drawn in order from the input; for n ≥ 0 there are min(n, number of URLs) results, all of them when n is large enough |
| LegacyServer.LegacyResponseFor | server.py:606-633 | the response carries the query, the deduplicated results, not cached, and the timestamp |
| LegacyServer.LegacyResponseFacts | server.py:606-633 | total_results is the number of results and is at most n ≤ 20; sources are zero for an empty result and the input lengths otherwise; results are empty exactly when there is no input or n = 0 |
| LegacyServer.LegacySearchWeb | server.py:580-640 | a hit is served marked cached and written back into the cache; a miss sweeps both caches, searches and stores a non-empty response under the hashed key |
| LegacyServer.LegacyRepeatServed | server.py:587-594 | a response stored by a miss is served again, marked cached, within the TTL |
| LegacyServer.CountsPartition | server.py:449-454 | successes and failures add up to the number of results, and each is 0 exactly when every result is of the other kind |
| LegacyServer.CollectResults | server.py:434-444 | each URL gets its worker's record, or the timeout error record |
| LegacyServer.FetchMultiplePages | server.py:406-457 | the batch holds one result per URL; successful and failed fetches add up to the total; a URL whose worker did not finish is a failed "general" error |

## Left out

- The engines' HTML and JSON parsers and the page fetcher are not part of this
  model. Their answers are parameters: the slots of `parallel_search`, the outcomes
  of the fallback pairs, and the finished workers of the batch fetch.
- Threads, join timeouts, asyncio tasks and locks are not modelled. A thread that
  did not finish in time is an absent (None) slot. Each operation runs alone.
- Clocks are parameters. One `now` stands for every `time.time()` call within a
  single operation.
- `get_cache_key`'s MD5 digest is the function parameter `hash`.
- JSON encoding and the LRU cache's gzip compression are modelled as the identity on
  records.
- Logging and the metrics files of tracking are not modelled.
- The environment flags are replaced by the `Strategy` parameter, which selects the
  original or the smart branch. Comparison mode is not modelled. Its
  `compare_deduplication_methods` hands shallow copies of the candidate list to
  `process_results` (smart_deduplication.py:243-247), and that method overwrites
  `quality_score` in the shared dictionaries (smart_deduplication.py:210-211). Its
  `deduplicate_results` run also writes `rank` into them. So comparison mode's
  "original" branch (ranking.py:142-149 and 70-74) sorts and deduplicates by the
  content-quality scores, not by the scores the `Original` strategy uses.
- Ranking.QualityFirstRanking, Ranking.QualityFirstRankingFallback: they return
  fresh lists. The in-place writes of `quality_score` and `rank` into the
  caller's dictionaries, and the aliasing of the fallback ranking's shallow copies,
  are not modelled.
- Floating-point scores and similarities are real numbers. Rounding is not modelled.
- Text handling assumes ASCII:
  - `\w`, `\s`, `str.lower`, `str.isupper` and `split()` only recognise ASCII
    letters, digits and whitespace. The whitespace is every ASCII character
    `str.isspace` accepts: space, tab, the line breaks, vertical tab, form feed
    and the separators 0x1C-0x1F. Non-ASCII whitespace such as U+00A0 and U+0085
    counts as an ordinary character.
  - `splitlines` ignores the Unicode line separators
  - HTML parsing (BeautifulSoup) is not modelled: extraction starts from the page
    text
- `urlparse` is modelled without its scheme-specific rules, its port validation and
  percent-encoding. `parse_qs` and `urlencode` are modelled without percent-encoding
  or '+' decoding. The round-trip lemmas carry requirements that exclude the
  characters this leaves out.
- Rotation:
  - glob metacharacters in the base name are not modelled
  - `%Y` is modelled only from year 1000 on, where it prints four digits
  - the directory is the set of names in one folder
- Quota files: the record is the only file shape modelled. An unreadable or missing
  file is the `Unreadable` or absent case.
- `get_stats`' hit_rate is always 0, since the counters it reads are never set.
  `get_connection_stats` averages over the ages of the active connections, in the
  order they were inserted.
- A batch fetch worker that raised stores a "Thread error" record. That record is
  part of the finished-workers parameter.
- The body of `managed_connection` is not modelled. The manager is unchanged
  between registration and removal.
- The root server.py's copies of `extract_text_content`, `create_error_result` and
  `get_troubleshooting_tips` (server.py:118-161) are the same code as
  utils/content.py. They are modelled once, in `Content`.
- Two legacy entry points are not modelled:
  - the root server.py's three-engine `parallel_search`, which is the same fan-out
    as `Search.ParallelSearch` with three slots
  - `_fetch_single_page_content`, which does network I/O
- The CLI and MCP tool wrappers and the daemon lifecycle are not modelled. They
  only log or report.
- `analyze_results` and `compare_deduplication_methods` are not modelled. The first
  only reports. The second also rescores and renumbers the shared dictionaries, as
  the comparison-mode line above says.

## Findings

| source | as written | input that shows it | evidently intended | confidence | as-written member | corrected member |
|---|---|---|---|---|---|---|
| src/websearch/core/search.py:78 | `search_web_fallback` caches `response_json`, a string; `get_cached_search_result` then runs `cached_result["cached"] = True` on it | any fallback search repeated with the same query and num_results within 300 seconds: the lookup raises TypeError | store the response dictionary, as `search_web` does, so the repeat is served from the cache | high; not executed | Search.FallbackRepeatRaises | Search.SearchWebFallbackStoringDict |
