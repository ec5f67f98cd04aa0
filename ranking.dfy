/** Quality-first ranking: each engine's results get a score from their position in
    that engine's list and the length of their title and snippet; the pooled
    candidates are deduplicated and the best are returned. */
module Ranking {
  import opened Base
  import opened Results
  import opened Deduplication
  import opened SmartDedup

  /** The deduplication the feature flags select: the original URL/title filter, or
      `SmartDeduplicator` when ENABLE_SMART_DEDUPLICATION is "true". */
  datatype Strategy = Original | Smart

  /** The content part of `_calculate_quality_score`: +0.5 for a title over 20
      characters, +0.5 for a snippet over 50, -1.0 if the title is under 10 or the
      snippet under 20. */
  function ContentBonus(h: Hit): (b: real)
    ensures -1.0 <= b <= 1.0
  {
    (if |h.title| > 20 then 0.5 else 0.0) + (if |h.snippet| > 50 then 0.5 else 0.0)
      - (if |h.title| < 10 || |h.snippet| < 20 then 1.0 else 0.0)
  }

  /** `_calculate_quality_score(result, engine_rank)`: 10 for the first place, 2 less
      for each later place, plus the content bonus, and never below 0.1. */
  function QualityScore(h: Hit, engineRank: int): (r: real)
    ensures r >= 0.1
    ensures engineRank <= 5 ==> r == 10.0 - (engineRank - 1) as real * 2.0 + ContentBonus(h)
  {
    var baseScore := 10.0 - (engineRank - 1) as real * 2.0;
    var total := baseScore + ContentBonus(h);
    if 0.1 >= total then 0.1 else total
  }

  /** Place dominates content: a result never scores below a result placed lower by
      its engine, whatever the titles and snippets. */
  lemma PlaceDominatesContent(a: Hit, b: Hit, ra: int, rb: int)
    requires ra < rb
    ensures QualityScore(a, ra) >= QualityScore(b, rb)
  {
  }

  /** `prepare_engine_results` in `quality_first_ranking`: the first `per` results
      (Python slice), tagged with the engine as source, their place and their score. */
  function Prepared(results: seq<Hit>, engine: string, per: int): (r: seq<Hit>)
    ensures |r| == |SliceTo(results, per)|
  {
    var top := SliceTo(results, per);
    seq(|top|, i requires 0 <= i < |top| =>
      top[i].(source := engine, engineRank := i + 1, qualityScore := QualityScore(top[i], i + 1)))
  }

  /** Each engine's prepared results come out sorted by score, because the score
      falls with the place faster than content can raise it. */
  lemma PreparedSorted(results: seq<Hit>, engine: string, per: int)
    ensures SortedDesc(Prepared(results, engine, per))
  {
    var r := Prepared(results, engine, per);
    var top := SliceTo(results, per);
    forall i, j | 0 <= i < j < |r| ensures r[i].qualityScore >= r[j].qualityScore {
      PlaceDominatesContent(top[i], top[j], i + 1, j + 1);
    }
  }

  method PrepareEngineResults(results: seq<Hit>, engine: string, per: int) returns (prepared: seq<Hit>)
    ensures prepared == Prepared(results, engine, per)
    ensures 0 <= per ==> |prepared| <= per
    ensures forall i :: 0 <= i < |prepared| ==>
      prepared[i].source == engine && prepared[i].engineRank == i + 1
      && prepared[i].url == results[i].url && prepared[i].qualityScore >= 0.1
  {
    var top := SliceTo(results, per);
    prepared := [];
    for i := 0 to |top|
      invariant |prepared| == i
      invariant forall k :: 0 <= k < i ==>
        prepared[k] == top[k].(source := engine, engineRank := k + 1, qualityScore := QualityScore(top[k], k + 1))
    {
      var resultCopy := top[i].(source := engine, engineRank := i + 1);
      resultCopy := resultCopy.(qualityScore := QualityScore(resultCopy, i + 1));
      prepared := prepared + [resultCopy];
    }
  }

  /** `min(4, num_results // 2)`; Python's floor division agrees with Dafny's for a
      positive divisor. */
  function CandidatesPerEngine(numResults: int): int
  {
    if 4 <= numResults / 2 then 4 else numResults / 2
  }

  /** The candidate pool of `quality_first_ranking`, in engine order. */
  function Pool(ddg: seq<Hit>, bing: seq<Hit>, startpage: seq<Hit>, google: seq<Hit>, brave: seq<Hit>,
                numResults: int): seq<Hit>
  {
    var per := CandidatesPerEngine(numResults);
    Prepared(ddg, "duckduckgo", per) + Prepared(bing, "bing", per) + Prepared(startpage, "startpage", per)
      + Prepared(google, "google", per) + Prepared(brave, "brave", per)
  }

  /** Position of the first entry with this URL, or |d| when there is none. */
  function FindUrl(d: seq<Hit>, url: string): (j: nat)
    ensures j <= |d|
    ensures j < |d| ==> d[j].url == url
    ensures forall k :: 0 <= k < j ==> d[k].url != url
  {
    if d == [] then 0 else if d[0].url == url then 0 else 1 + FindUrl(d[1..], url)
  }

  /** One step of `_deduplicate_by_quality`'s dict: a new URL is appended, a known
      URL is replaced in place only by a strictly better score. */
  function Upsert(d: seq<Hit>, x: Hit): seq<Hit>
  {
    var j := FindUrl(d, x.url);
    if j == |d| then d + [x]
    else if x.qualityScore > d[j].qualityScore then d[j := x]
    else d
  }

  /** The values of `url_to_best` after all results, in key insertion order. */
  function BestPerUrl(s: seq<Hit>): seq<Hit>
    decreases |s|
  {
    if s == [] then [] else Upsert(BestPerUrl(s[..|s| - 1]), s[|s| - 1])
  }

  /** `_deduplicate_by_quality(results)` */
  method DeduplicateByQuality(results: seq<Hit>) returns (deduped: seq<Hit>)
    ensures deduped == BestPerUrl(results)
  {
    deduped := [];
    for i := 0 to |results|
      invariant deduped == BestPerUrl(results[..i])
    {
      var result := results[i];
      var j := FindUrl(deduped, result.url);
      if j == |deduped| || result.qualityScore > deduped[j].qualityScore {
        if j == |deduped| {
          deduped := deduped + [result];
        } else {
          deduped := deduped[j := result];
        }
      }
      assert results[..i + 1][..i] == results[..i];
    }
    assert results[..|results|] == results;
  }

  predicate UrlsDistinct(s: seq<Hit>)
  {
    forall i, j :: 0 <= i < j < |s| ==> s[i].url != s[j].url
  }

  predicate HasUrl(s: seq<Hit>, url: string)
  {
    exists j :: 0 <= j < |s| && s[j].url == url
  }

  /** Facts about one step, shared by the lemmas below. */
  lemma UpsertFacts(d: seq<Hit>, x: Hit)
    requires UrlsDistinct(d)
    ensures var r := Upsert(d, x);
      UrlsDistinct(r)
      && |d| <= |r|
      && (forall j :: 0 <= j < |d| ==> r[j] == d[j] || (r[j] == x && d[j].url == x.url && x.qualityScore > d[j].qualityScore))
      && (|r| > |d| ==> |r| == |d| + 1 && r[|d|] == x && !HasUrl(d, x.url))
      && (forall j :: 0 <= j < |r| && r[j].url == x.url ==> r[j] == x || (r[j] == d[j] && x.qualityScore <= d[j].qualityScore))
  {
    var r := Upsert(d, x);
    var j0 := FindUrl(d, x.url);
    if j0 == |d| {
      forall i, j | 0 <= i < j < |r| ensures r[i].url != r[j].url {
        if j == |d| { assert r[i] == d[i]; } else { assert r[i] == d[i] && r[j] == d[j]; }
      }
    } else {
      assert forall j :: 0 <= j < |d| && d[j].url == x.url ==> j == j0;
      if x.qualityScore > d[j0].qualityScore {
        forall i, j | 0 <= i < j < |r| ensures r[i].url != r[j].url {
          assert r[i].url == d[i].url && r[j].url == d[j].url;
        }
      }
    }
  }

  /** The deduplicated results have distinct URLs, cover every input URL, and each is
      an input result. */
  lemma {:induction false} BestPerUrlCovers(s: seq<Hit>)
    ensures var r := BestPerUrl(s);
      UrlsDistinct(r)
      && (forall k :: 0 <= k < |s| ==> HasUrl(r, s[k].url))
      && (forall j :: 0 <= j < |r| ==> r[j] in s)
    decreases |s|
  {
    if s != [] {
      var s' := s[..|s| - 1];
      var x := s[|s| - 1];
      var d := BestPerUrl(s');
      var r := BestPerUrl(s);
      BestPerUrlCovers(s');
      UpsertFacts(d, x);
      assert r == Upsert(d, x);
      forall k | 0 <= k < |s| ensures HasUrl(r, s[k].url) {
        if k < |s'| {
          assert s[k] == s'[k];
          var j :| 0 <= j < |d| && d[j].url == s'[k].url;
          assert r[j].url == d[j].url;
        } else {
          var j0 := FindUrl(d, x.url);
          if j0 < |d| {
            assert r[j0].url == x.url;
          } else {
            assert r[|d|] == x;
          }
        }
      }
      forall j | 0 <= j < |r| ensures r[j] in s {
        if j < |d| && r[j] == d[j] {
          assert d[j] in s';
        }
      }
    }
  }

  /** Each kept result has the highest score among the input results with its URL. */
  lemma {:induction false} BestPerUrlMax(s: seq<Hit>)
    ensures var r := BestPerUrl(s);
      forall j, k :: 0 <= j < |r| && 0 <= k < |s| && s[k].url == r[j].url ==> s[k].qualityScore <= r[j].qualityScore
    decreases |s|
  {
    if s != [] {
      var s' := s[..|s| - 1];
      var x := s[|s| - 1];
      var d := BestPerUrl(s');
      var r := BestPerUrl(s);
      BestPerUrlMax(s');
      BestPerUrlCovers(s');
      UpsertKeepsMax(s', d, x);
      UpsertNewMax(d, x);
      assert r == Upsert(d, x);
      forall j, k | 0 <= j < |r| && 0 <= k < |s| && s[k].url == r[j].url
        ensures s[k].qualityScore <= r[j].qualityScore
      {
        if k < |s'| {
          assert s[k] == s'[k];
        } else {
          assert s[k] == x;
        }
      }
    }
  }

  /** After a step of the merge, the kept result with the new result's URL scores at
      least as high as the new result. */
  lemma UpsertNewMax(d: seq<Hit>, x: Hit)
    requires UrlsDistinct(d)
    ensures var r := Upsert(d, x);
      forall j :: 0 <= j < |r| && r[j].url == x.url ==> x.qualityScore <= r[j].qualityScore
  {
    UpsertFacts(d, x);
  }

  /** A step of the merge keeps every earlier result at or below the kept result with
      its URL. */
  lemma UpsertKeepsMax(s': seq<Hit>, d: seq<Hit>, x: Hit)
    requires UrlsDistinct(d)
    requires forall k :: 0 <= k < |s'| ==> HasUrl(d, s'[k].url)
    requires forall j, k :: 0 <= j < |d| && 0 <= k < |s'| && s'[k].url == d[j].url ==> s'[k].qualityScore <= d[j].qualityScore
    ensures var r := Upsert(d, x);
      forall j, k :: 0 <= j < |r| && 0 <= k < |s'| && s'[k].url == r[j].url ==> s'[k].qualityScore <= r[j].qualityScore
  {
    var r := Upsert(d, x);
    UpsertFacts(d, x);
    forall j, k | 0 <= j < |r| && 0 <= k < |s'| && s'[k].url == r[j].url
      ensures s'[k].qualityScore <= r[j].qualityScore
    {
      assert HasUrl(d, s'[k].url);
      if j < |d| && r[j] != d[j] {
        assert d[j].url == x.url && x.qualityScore > d[j].qualityScore;
      }
    }
  }

  /** h occurs in s, and every earlier result with its URL scores strictly less. */
  predicate FirstAtScore(s: seq<Hit>, h: Hit)
  {
    exists m :: 0 <= m < |s| && s[m] == h
      && forall k :: 0 <= k < m && s[k].url == h.url ==> s[k].qualityScore < h.qualityScore
  }

  lemma FirstAtScoreExtend(s: seq<Hit>, x: Hit, h: Hit)
    requires FirstAtScore(s, h)
    ensures FirstAtScore(s + [x], h)
  {
    var m :| 0 <= m < |s| && s[m] == h
      && forall k :: 0 <= k < m && s[k].url == h.url ==> s[k].qualityScore < h.qualityScore;
    assert (s + [x])[m] == h;
    assert forall k :: 0 <= k < m ==> (s + [x])[k] == s[k];
  }

  lemma FirstAtScoreLast(s: seq<Hit>, x: Hit)
    requires forall k :: 0 <= k < |s| && s[k].url == x.url ==> s[k].qualityScore < x.qualityScore
    ensures FirstAtScore(s + [x], x)
  {
    assert (s + [x])[|s|] == x;
    assert forall k :: 0 <= k < |s| ==> (s + [x])[k] == s[k];
  }

  /** Each kept result is the first input result with its URL to reach its score: a
      later result with an equal score does not replace it. */
  lemma {:induction false} BestPerUrlFirst(s: seq<Hit>)
    ensures var r := BestPerUrl(s);
      forall j :: 0 <= j < |r| ==> FirstAtScore(s, r[j])
    decreases |s|
  {
    if s != [] {
      var s' := s[..|s| - 1];
      var x := s[|s| - 1];
      assert s == s' + [x];
      var d := BestPerUrl(s');
      var r := BestPerUrl(s);
      BestPerUrlFirst(s');
      BestPerUrlMax(s');
      BestPerUrlCovers(s');
      UpsertFacts(d, x);
      assert r == Upsert(d, x);
      forall j | 0 <= j < |r| ensures FirstAtScore(s, r[j]) {
        if j < |d| && r[j] == d[j] {
          FirstAtScoreExtend(s', x, d[j]);
        } else {
          assert r[j] == x;
          forall k | 0 <= k < |s'| && s'[k].url == x.url ensures s'[k].qualityScore < x.qualityScore {
            assert HasUrl(d, s'[k].url);
          }
          FirstAtScoreLast(s', x);
        }
      }
    }
  }

  /** Inserting a result with a new URL into a list of distinct URLs keeps them distinct. */
  lemma {:induction false} InsertDescDistinct(x: Hit, s: seq<Hit>)
    requires UrlsDistinct(s) && !HasUrl(s, x.url)
    ensures UrlsDistinct(InsertDesc(x, s))
    decreases |s|
  {
    if !(s == [] || x.qualityScore >= s[0].qualityScore) {
      var t := InsertDesc(x, s[1..]);
      InsertDescDistinct(x, s[1..]);
      InsertDescIn(x, s[1..]);
      forall k | 0 <= k < |t| ensures t[k].url != s[0].url {
        assert t[k] in t;
        if t[k] != x {
          var m :| 0 <= m < |s[1..]| && s[1..][m] == t[k];
          assert s[m + 1] == t[k];
        }
      }
      var r := [s[0]] + t;
      forall i, j | 0 <= i < j < |r| ensures r[i].url != r[j].url {
        if i > 0 { assert r[i] == t[i - 1] && r[j] == t[j - 1]; }
      }
    }
  }

  /** Sorting keeps URLs distinct. */
  lemma {:induction false} SortByScoreDistinct(s: seq<Hit>)
    requires UrlsDistinct(s)
    ensures UrlsDistinct(SortByScore(s))
    decreases |s|
  {
    if s != [] {
      var t := SortByScore(s[1..]);
      SortByScoreDistinct(s[1..]);
      forall k | 0 <= k < |t| ensures t[k].url != s[0].url {
        assert t[k] in multiset(s[1..]);
        var m :| 0 <= m < |s[1..]| && s[1..][m] == t[k];
        assert s[m + 1] == t[k];
      }
      InsertDescDistinct(s[0], t);
    }
  }

  /** What `quality_first_ranking` returns with the original deduplication: the best
      version of each URL, by score, cut to num_results (a Python slice). */
  function QualityRanked(pool: seq<Hit>, numResults: int): seq<Hit>
  {
    SliceTo(SortByScore(BestPerUrl(pool)), numResults)
  }

  /** `quality_first_ranking(ddg, bing, startpage, google, brave, num_results)`.
      With smart deduplication the closing log line reads `deduped`, which that branch
      never assigns, so the call raises UnboundLocalError: None. */
  method QualityFirstRanking(ddg: seq<Hit>, bing: seq<Hit>, startpage: seq<Hit>, google: seq<Hit>,
                             brave: seq<Hit>, numResults: int, strategy: Strategy)
    returns (r: Option<seq<Hit>>)
    ensures strategy == Original ==> r == Some(QualityRanked(Pool(ddg, bing, startpage, google, brave, numResults), numResults))
    ensures strategy == Smart ==> r == None
  {
    var per := CandidatesPerEngine(numResults);
    var ddgPrepared := PrepareEngineResults(ddg, "duckduckgo", per);
    var bingPrepared := PrepareEngineResults(bing, "bing", per);
    var startpagePrepared := PrepareEngineResults(startpage, "startpage", per);
    var googlePrepared := PrepareEngineResults(google, "google", per);
    var bravePrepared := PrepareEngineResults(brave, "brave", per);
    var allCandidates := ddgPrepared + bingPrepared + startpagePrepared + googlePrepared + bravePrepared;
    if strategy == Smart {
      var finalResults := ProcessResults(allCandidates, DefaultThreshold, DefaultMaxPerDomain);
      r := None;
    } else {
      var deduped := DeduplicateByQuality(allCandidates);
      deduped := SortByScore(deduped);
      r := Some(SliceTo(deduped, numResults));
    }
  }

  /** The deduplicated pool, sorted: sorted by score, distinct URLs, drawn from the
      pool, and best per URL. */
  lemma SortedBest(pool: seq<Hit>)
    ensures var sorted := SortByScore(BestPerUrl(pool));
      SortedDesc(sorted) && UrlsDistinct(sorted) && |sorted| == |BestPerUrl(pool)|
      && (forall j :: 0 <= j < |sorted| ==> sorted[j] in pool)
      && (forall j, k :: 0 <= j < |sorted| && 0 <= k < |pool| && pool[k].url == sorted[j].url ==>
            pool[k].qualityScore <= sorted[j].qualityScore)
  {
    var best := BestPerUrl(pool);
    var sorted := SortByScore(best);
    BestPerUrlCovers(pool);
    BestPerUrlMax(pool);
    SortByScoreSorted(best);
    SortByScoreDistinct(best);
    SortByScoreIn(best);
    forall j | 0 <= j < |sorted|
      ensures sorted[j] in pool
      ensures forall k :: 0 <= k < |pool| && pool[k].url == sorted[j].url ==> pool[k].qualityScore <= sorted[j].qualityScore
    {
      assert sorted[j] in sorted;
      var m :| 0 <= m < |best| && best[m] == sorted[j];
    }
  }

  /** The ranked results are sorted by score, have distinct URLs and are at most
      num_results. Each is a pooled candidate scoring highest among the candidates
      with its URL. A negative num_results is a Python slice from the end, so it
      drops that many results instead of giving an empty list. */
  lemma QualityRankedProperties(pool: seq<Hit>, n: int)
    ensures var r := QualityRanked(pool, n);
      SortedDesc(r) && UrlsDistinct(r)
      && (0 <= n ==> |r| <= n)
      && (n < 0 ==> |r| == (if |BestPerUrl(pool)| + n < 0 then 0 else |BestPerUrl(pool)| + n))
      && (forall j :: 0 <= j < |r| ==> r[j] in pool)
      && (forall j, k :: 0 <= j < |r| && 0 <= k < |pool| && pool[k].url == r[j].url ==>
            pool[k].qualityScore <= r[j].qualityScore)
  {
    var sorted := SortByScore(BestPerUrl(pool));
    var r := QualityRanked(pool, n);
    SortedBest(pool);
    SliceToSorted(sorted, n);
    assert r == sorted[..|r|];
    forall j | 0 <= j < |r| ensures r[j] == sorted[j] && r[j] in pool {
    }
    forall i, j | 0 <= i < j < |r| ensures r[i].url != r[j].url {
      assert r[i] == sorted[i] && r[j] == sorted[j];
    }
    forall j, k | 0 <= j < |r| && 0 <= k < |pool| && pool[k].url == r[j].url
      ensures pool[k].qualityScore <= r[j].qualityScore
    {
      assert r[j] == sorted[j];
    }
  }

  /** With num_results 0 or 1 each engine contributes num_results // 2 = 0 candidates,
      so there is nothing to rank. */
  lemma QualityRankedTooFew(ddg: seq<Hit>, bing: seq<Hit>, startpage: seq<Hit>, google: seq<Hit>,
                            brave: seq<Hit>, n: int)
    requires 0 <= n <= 1
    ensures Pool(ddg, bing, startpage, google, brave, n) == []
    ensures QualityRanked(Pool(ddg, bing, startpage, google, brave, n), n) == []
  {
    assert CandidatesPerEngine(n) == 0;
  }

  /** `prepare_engine_results` in `quality_first_ranking_fallback`: results lacking a
      url or a title are skipped; the others are tagged with the engine and their
      1-based place in the engine's full list. */
  function FallbackPrepared(results: seq<Hit>, engine: string): seq<Hit>
    decreases |results|
  {
    if results == [] then []
    else
      var x := results[|results| - 1];
      FallbackPrepared(results[..|results| - 1], engine)
        + (if x.url == "" || x.title == "" then [] else [x.(engine := engine, engineRank := |results|)])
  }

  lemma FallbackPreparedStep(results: seq<Hit>, i: nat, engine: string)
    requires i < |results|
    ensures FallbackPrepared(results[..i + 1], engine) == FallbackPrepared(results[..i], engine)
      + (if results[i].url == "" || results[i].title == "" then []
         else [results[i].(engine := engine, engineRank := i + 1)])
  {
    assert results[..i + 1][..i] == results[..i];
    assert results[..i + 1][i] == results[i];
  }

  method PrepareFallbackResults(results: seq<Hit>, engine: string) returns (prepared: seq<Hit>)
    ensures prepared == FallbackPrepared(results, engine)
  {
    prepared := [];
    for i := 0 to |results|
      invariant prepared == FallbackPrepared(results[..i], engine)
    {
      var result := results[i];
      FallbackPreparedStep(results, i, engine);
      if result.url == "" || result.title == "" {
        continue;
      }
      var preparedResult := result.(engine := engine, engineRank := i + 1);
      prepared := prepared + [preparedResult];
    }
    assert results[..|results|] == results;
  }

  /** Each prepared result has a url and a title and is the engine's result at its
      1-based engine_rank, tagged with the engine. */
  predicate TaggedFrom(r: seq<Hit>, results: seq<Hit>, engine: string)
  {
    forall k :: 0 <= k < |r| ==>
      1 <= r[k].engineRank <= |results| && r[k].url != "" && r[k].title != ""
      && r[k] == results[r[k].engineRank - 1].(engine := engine, engineRank := r[k].engineRank)
  }

  lemma {:induction false} FallbackPreparedTagged(results: seq<Hit>, engine: string)
    ensures TaggedFrom(FallbackPrepared(results, engine), results, engine)
    decreases |results|
  {
    if results != [] {
      var n := |results| - 1;
      var s' := results[..n];
      var p := FallbackPrepared(s', engine);
      var r := FallbackPrepared(results, engine);
      FallbackPreparedTagged(s', engine);
      assert forall k :: 0 <= k < |p| ==> r[k] == p[k];
      assert forall k :: 0 <= k < |p| ==> results[p[k].engineRank - 1] == s'[p[k].engineRank - 1];
    }
  }

  /** Prepared results keep the engine's order. */
  predicate RanksIncrease(r: seq<Hit>)
  {
    forall k, l :: 0 <= k < l < |r| ==> r[k].engineRank < r[l].engineRank
  }

  lemma {:induction false} FallbackPreparedOrdered(results: seq<Hit>, engine: string)
    ensures RanksIncrease(FallbackPrepared(results, engine))
    decreases |results|
  {
    if results != [] {
      var n := |results| - 1;
      var s' := results[..n];
      var p := FallbackPrepared(s', engine);
      var r := FallbackPrepared(results, engine);
      FallbackPreparedOrdered(s', engine);
      FallbackPreparedTagged(s', engine);
      assert forall k :: 0 <= k < |p| ==> r[k] == p[k];
    }
  }

  /** No result with a url and a title is skipped. */
  predicate Covers(r: seq<Hit>, results: seq<Hit>)
  {
    forall i :: 0 <= i < |results| && results[i].url != "" && results[i].title != "" ==>
      exists k :: 0 <= k < |r| && r[k].engineRank == i + 1
  }

  lemma {:induction false} FallbackPreparedComplete(results: seq<Hit>, engine: string)
    ensures Covers(FallbackPrepared(results, engine), results)
    decreases |results|
  {
    if results != [] {
      var n := |results| - 1;
      var s' := results[..n];
      var p := FallbackPrepared(s', engine);
      var r := FallbackPrepared(results, engine);
      FallbackPreparedComplete(s', engine);
      forall i | 0 <= i < |results| && results[i].url != "" && results[i].title != ""
        ensures exists k :: 0 <= k < |r| && r[k].engineRank == i + 1
      {
        if i < n {
          assert s'[i] == results[i];
          var k :| 0 <= k < |p| && p[k].engineRank == i + 1;
          assert r[k] == p[k];
        } else {
          assert r[|p|].engineRank == i + 1;
        }
      }
    }
  }

  /** The score the fallback ranking gives a prepared candidate. */
  function FallbackScore(h: Hit): real
  {
    QualityScore(h, h.engineRank)
  }

  function FallbackPool(primary: seq<Hit>, secondary: seq<Hit>, brave: seq<Hit>): seq<Hit>
  {
    FallbackPrepared(primary, "fallback_primary") + FallbackPrepared(secondary, "fallback_secondary")
      + FallbackPrepared(brave, "brave")
  }

  /** What `quality_first_ranking_fallback` returns. */
  function FallbackRanked(primary: seq<Hit>, secondary: seq<Hit>, brave: seq<Hit>, numResults: int,
                          strategy: Strategy): seq<Hit>
  {
    var pool := FallbackPool(primary, secondary, brave);
    if pool == [] then []
    else
      var scored := Rescored(pool, FallbackScore);
      match strategy
      case Original => Deduplicated(scored, numResults)
      case Smart => SliceTo(Processed(scored, DefaultThreshold, DefaultMaxPerDomain), numResults)
  }

  /** `quality_first_ranking_fallback(google_startpage, bing_ddg, brave, num_results)` */
  method QualityFirstRankingFallback(primary: seq<Hit>, secondary: seq<Hit>, brave: seq<Hit>,
                                     numResults: int, strategy: Strategy)
    returns (finalResults: seq<Hit>)
    ensures finalResults == FallbackRanked(primary, secondary, brave, numResults, strategy)
  {
    var primaryPrepared := PrepareFallbackResults(primary, "fallback_primary");
    var secondaryPrepared := PrepareFallbackResults(secondary, "fallback_secondary");
    var bravePrepared := PrepareFallbackResults(brave, "brave");
    var allCandidates := primaryPrepared + secondaryPrepared + bravePrepared;
    if |allCandidates| == 0 {
      return [];
    }
    var scoredCandidates: seq<Hit> := [];
    for i := 0 to |allCandidates|
      invariant scoredCandidates == Rescored(allCandidates[..i], FallbackScore)
    {
      var candidate := allCandidates[i];
      var score := QualityScore(candidate, candidate.engineRank);
      RescoredStep(allCandidates, i, FallbackScore);
      scoredCandidates := scoredCandidates + [candidate.(qualityScore := score)];
    }
    assert allCandidates[..|allCandidates|] == allCandidates;
    if strategy == Smart {
      finalResults := ProcessResults(scoredCandidates, DefaultThreshold, DefaultMaxPerDomain);
      finalResults := SliceTo(finalResults, numResults);
    } else {
      finalResults := DeduplicateResults(scoredCandidates, numResults);
    }
  }

  /** The fallback ranking is empty when no engine yields a candidate, and otherwise
      sorted by score and at most num_results long. The original deduplication
      numbers the results 1, 2, ... and keeps their normalised URLs and titles
      distinct; the smart one keeps at most two results per domain. */
  lemma FallbackRankedProperties(primary: seq<Hit>, secondary: seq<Hit>, brave: seq<Hit>, n: int,
                                 strategy: Strategy)
    ensures var r := FallbackRanked(primary, secondary, brave, n, strategy);
      (FallbackPool(primary, secondary, brave) == [] ==> r == [])
      && SortedDesc(r)
      && (0 <= n ==> |r| <= n)
      && (strategy == Original ==>
            (forall i :: 0 <= i < |r| ==> r[i].rank == i + 1)
            && DistinctBy(r, UrlKey) && DistinctBy(r, TitleKey))
      && (strategy == Smart ==> forall d :: |Filter(r, DomainKey, d)| <= DefaultMaxPerDomain)
  {
    var pool := FallbackPool(primary, secondary, brave);
    if pool != [] {
      var scored := Rescored(pool, FallbackScore);
      if strategy == Original {
        DeduplicatedProperties(scored, n);
      } else {
        var p := Processed(scored, DefaultThreshold, DefaultMaxPerDomain);
        ProcessedProperties(scored, DefaultThreshold, DefaultMaxPerDomain);
        SliceToSorted(p, n);
        forall d ensures |Filter(SliceTo(p, n), DomainKey, d)| <= DefaultMaxPerDomain {
          FilterPrefix(p, |SliceTo(p, n)|, DomainKey, d);
        }
      }
    }
  }

  /** `get_engine_distribution`: counters for duckduckgo, bing and startpage, and an
      "unknown" counter, created on first use, for every other source. */
  function Distribution(results: seq<Hit>): Counts
    decreases |results|
  {
    if results == [] then [("duckduckgo", 0), ("bing", 0), ("startpage", 0)]
    else
      var d := Distribution(results[..|results| - 1]);
      var engine := results[|results| - 1].source;
      Bump(d, if Get(d, engine).Some? then engine else "unknown")
  }

  method EngineDistribution(results: seq<Hit>) returns (distribution: Counts)
    ensures distribution == Distribution(results)
  {
    distribution := [("duckduckgo", 0), ("bing", 0), ("startpage", 0)];
    for i := 0 to |results|
      invariant distribution == Distribution(results[..i])
    {
      var engine := results[i].source;
      assert results[..i + 1][..i] == results[..i];
      if Get(distribution, engine).Some? {
        distribution := Bump(distribution, engine);
      } else {
        distribution := Bump(distribution, "unknown");
      }
    }
    assert results[..|results|] == results;
  }

  predicate Tracked(e: string) { e == "duckduckgo" || e == "bing" || e == "startpage" }

  /** Number of results whose source satisfies the test. */
  function CountSource(s: seq<Hit>, e: string): nat
    decreases |s|
  {
    if s == [] then 0 else CountSource(s[..|s| - 1], e) + (if s[|s| - 1].source == e then 1 else 0)
  }

  function CountUntracked(s: seq<Hit>): nat
    decreases |s|
  {
    if s == [] then 0 else CountUntracked(s[..|s| - 1]) + (if Tracked(s[|s| - 1].source) then 0 else 1)
  }

  lemma DistributionInitial(e: string)
    ensures Sum(Distribution([])) == 0
    ensures Get(Distribution([]), "unknown") == None
    ensures Get(Distribution([]), e) == if Tracked(e) then Some(0) else None
  {
    var d := Distribution([]);
    assert d[1..][1..][1..] == [];
    assert Sum(d[1..][1..]) == 0;
    assert Sum(d[1..]) == 0;
    assert Get(d[1..][1..], "unknown") == None;
    assert Get(d[1..], "unknown") == None;
    if e == "duckduckgo" {
    } else if e == "bing" {
      assert Get(d[1..], e) == Some(0);
    } else if e == "startpage" {
      assert Get(d[1..][1..], e) == Some(0);
    } else {
      assert Get(d[1..][1..][1..], e) == None;
      assert Get(d[1..][1..], e) == None;
      assert Get(d[1..], e) == None;
    }
  }

  /** The distribution counts every result once: each tracked engine's counter holds
      the number of its results, "unknown" holds the rest and exists only when there
      are some, and there is no other key. */
  lemma DistributionCounts(results: seq<Hit>, e: string)
    ensures Sum(Distribution(results)) == |results|
    ensures Tracked(e) ==> Get(Distribution(results), e) == Some(CountSource(results, e))
    ensures Get(Distribution(results), "unknown")
      == if CountUntracked(results) == 0 then None else Some(CountUntracked(results))
    ensures !Tracked(e) && e != "unknown" ==> Get(Distribution(results), e) == None
  {
    DistributionSum(results);
    DistributionTracked(results, e);
    DistributionUnknown(results);
  }

  lemma {:induction false} DistributionSum(results: seq<Hit>)
    ensures Sum(Distribution(results)) == |results|
    decreases |results|
  {
    if results == [] {
      DistributionInitial("");
    } else {
      DistributionSum(results[..|results| - 1]);
    }
  }

  /** The counter a result goes to: its own engine's when that is tracked, otherwise
      "unknown". */
  lemma DistributionKey(s: seq<Hit>, engine: string)
    requires Tracked(engine) ==> Get(Distribution(s), engine).Some?
    requires !Tracked(engine) && engine != "unknown" ==> Get(Distribution(s), engine) == None
    ensures (if Get(Distribution(s), engine).Some? then engine else "unknown")
      == if Tracked(engine) then engine else "unknown"
  {
  }

  lemma {:induction false} DistributionTracked(results: seq<Hit>, e: string)
    ensures Tracked(e) ==> Get(Distribution(results), e) == Some(CountSource(results, e))
    ensures !Tracked(e) && e != "unknown" ==> Get(Distribution(results), e) == None
    decreases |results|
  {
    if results == [] {
      DistributionInitial(e);
    } else {
      var s' := results[..|results| - 1];
      var d := Distribution(s');
      var engine := results[|results| - 1].source;
      DistributionTracked(s', e);
      DistributionTracked(s', engine);
      DistributionKey(s', engine);
      GetBump(d, if Tracked(engine) then engine else "unknown", e);
    }
  }

  lemma {:induction false} DistributionUnknown(results: seq<Hit>)
    ensures Get(Distribution(results), "unknown")
      == if CountUntracked(results) == 0 then None else Some(CountUntracked(results))
    decreases |results|
  {
    if results == [] {
      DistributionInitial("");
    } else {
      var s' := results[..|results| - 1];
      var d := Distribution(s');
      var engine := results[|results| - 1].source;
      DistributionUnknown(s');
      DistributionTracked(s', engine);
      DistributionKey(s', engine);
      GetBump(d, if Tracked(engine) then engine else "unknown", "unknown");
    }
  }
}
