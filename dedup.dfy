/** `deduplicate_results`: sort by quality score, then keep a result only if neither
    its normalised URL (lower-cased netloc and path) nor its normalised title
    (lower-cased and stripped) was kept before; stop at num_results and number the
    kept results 1, 2, ... in their `rank` field. */
module Deduplication {
  import opened Base
  import opened Text
  import opened Urls
  import opened Results

  /** `f"{netloc}{path}".lower()`, or the whole URL lower-cased when `urlparse` raises. */
  function NormUrl(url: string): string
  {
    match UrlParse(url)
    case None => Lower(url)
    case Some(p) => Lower(p.netloc + p.path)
  }

  /** `title.lower().strip()` */
  function NormTitle(title: string): string
  {
    Strip(Lower(title))
  }

  function UrlKey(h: Hit): string { NormUrl(h.url) }
  function TitleKey(h: Hit): string { NormTitle(h.title) }

  /** The keys k gives to the results in s. */
  function KeysOf(s: seq<Hit>, k: Hit -> string): set<string>
  {
    set i | 0 <= i < |s| :: k(s[i])
  }

  /** The greedy filter without the limit: a result is kept unless one of its two
      keys belongs to a result kept before it. */
  function KeepFresh(s: seq<Hit>, ku: Hit -> string, kt: Hit -> string): seq<Hit>
    decreases |s|
  {
    if s == [] then []
    else
      var p := KeepFresh(s[..|s| - 1], ku, kt);
      var x := s[|s| - 1];
      if ku(x) in KeysOf(p, ku) || kt(x) in KeysOf(p, kt) then p else p + [x]
  }

  /** One step of the greedy filter. */
  lemma KeepFreshStep(s: seq<Hit>, i: nat, ku: Hit -> string, kt: Hit -> string)
    requires i < |s|
    ensures var p := KeepFresh(s[..i], ku, kt);
      KeepFresh(s[..i + 1], ku, kt)
        == if ku(s[i]) in KeysOf(p, ku) || kt(s[i]) in KeysOf(p, kt) then p else p + [s[i]]
  {
    assert s[..i + 1][..i] == s[..i];
    assert s[..i + 1][i] == s[i];
  }

  /** Each result's rank set to its 1-based position. */
  function Numbered(s: seq<Hit>): (r: seq<Hit>)
    ensures |r| == |s|
    ensures forall i :: 0 <= i < |s| ==> r[i] == s[i].(rank := i + 1)
  {
    seq(|s|, i requires 0 <= i < |s| => s[i].(rank := i + 1))
  }

  lemma NumberedAppend(s: seq<Hit>, x: Hit)
    ensures Numbered(s + [x]) == Numbered(s) + [x.(rank := |s| + 1)]
  {
    assert forall i :: 0 <= i < |s| ==> (s + [x])[i] == s[i];
  }

  /** The rank takes no part in either key. */
  lemma RankFree(h: Hit, j: int)
    ensures UrlKey(h.(rank := j)) == UrlKey(h) && TitleKey(h.(rank := j)) == TitleKey(h)
  {
  }

  /** Numbering changes only the rank, so order and keys are unaffected. */
  lemma NumberedKeeps(s: seq<Hit>)
    ensures SortedDesc(s) ==> SortedDesc(Numbered(s))
    ensures DistinctBy(s, UrlKey) ==> DistinctBy(Numbered(s), UrlKey)
    ensures DistinctBy(s, TitleKey) ==> DistinctBy(Numbered(s), TitleKey)
  {
    var r := Numbered(s);
    forall i | 0 <= i < |s|
      ensures UrlKey(r[i]) == UrlKey(s[i]) && TitleKey(r[i]) == TitleKey(s[i])
    {
      RankFree(s[i], i + 1);
    }
    if DistinctBy(s, UrlKey) {
      SameKeysDistinct(s, r, UrlKey);
    }
    if DistinctBy(s, TitleKey) {
      SameKeysDistinct(s, r, TitleKey);
    }
    if SortedDesc(s) {
      forall i, j | 0 <= i < j < |r|
        ensures r[i].qualityScore >= r[j].qualityScore
      {
        assert r[i].qualityScore == s[i].qualityScore && r[j].qualityScore == s[j].qualityScore;
      }
    }
  }

  /** What `deduplicate_results(all, n)` returns. */
  function Deduplicated(all: seq<Hit>, n: int): seq<Hit>
  {
    if all == [] then [] else Numbered(Limit(KeepFresh(SortByScore(all), UrlKey, TitleKey), n))
  }

  /** No two results of s share a key under k. */
  predicate DistinctBy(s: seq<Hit>, k: Hit -> string)
  {
    forall i, j :: 0 <= i < j < |s| ==> k(s[i]) != k(s[j])
  }

  lemma KeysAppend(p: seq<Hit>, x: Hit, k: Hit -> string)
    ensures KeysOf(p + [x], k) == KeysOf(p, k) + {k(x)}
  {
    var q := p + [x];
    assert forall i :: 0 <= i < |p| ==> q[i] == p[i];
    assert q[|p|] == x;
    forall u | u in KeysOf(q, k) ensures u in KeysOf(p, k) + {k(x)} {
      var i :| 0 <= i < |q| && k(q[i]) == u;
    }
  }

  /** Two lists whose results have the same keys, position by position, are
      distinct under the key together. */
  lemma SameKeysDistinct(s: seq<Hit>, r: seq<Hit>, k: Hit -> string)
    requires |r| == |s| && forall i :: 0 <= i < |s| ==> k(r[i]) == k(s[i])
    requires DistinctBy(s, k)
    ensures DistinctBy(r, k)
  {
    forall i, j | 0 <= i < j < |r|
      ensures k(r[i]) != k(r[j])
    {
      assert k(r[i]) == k(s[i]) && k(r[j]) == k(s[j]);
    }
  }

  lemma PrefixDistinct(s: seq<Hit>, m: nat, k: Hit -> string)
    requires m <= |s| && DistinctBy(s, k)
    ensures DistinctBy(s[..m], k)
  {
    forall i, j | 0 <= i < j < m
      ensures k(s[..m][i]) != k(s[..m][j])
    {
      assert s[..m][i] == s[i] && s[..m][j] == s[j];
    }
  }

  /** Kept results differ pairwise in both keys. */
  lemma {:induction false} KeepFreshDistinct(s: seq<Hit>, ku: Hit -> string, kt: Hit -> string)
    ensures DistinctBy(KeepFresh(s, ku, kt), ku) && DistinctBy(KeepFresh(s, ku, kt), kt)
    decreases |s|
  {
    if s != [] {
      var p := KeepFresh(s[..|s| - 1], ku, kt);
      var x := s[|s| - 1];
      KeepFreshDistinct(s[..|s| - 1], ku, kt);
      if !(ku(x) in KeysOf(p, ku) || kt(x) in KeysOf(p, kt)) {
        var r := p + [x];
        forall i, j | 0 <= i < j < |r|
          ensures ku(r[i]) != ku(r[j]) && kt(r[i]) != kt(r[j])
        {
          assert r[i] == p[i];
          if j == |p| {
            assert ku(p[i]) in KeysOf(p, ku);
            assert kt(p[i]) in KeysOf(p, kt);
          } else {
            assert r[j] == p[j];
          }
        }
      }
    }
  }

  /** Kept results appear in the input, in input order. */
  lemma {:induction false} KeepFreshSubseq(s: seq<Hit>, ku: Hit -> string, kt: Hit -> string)
    ensures IsSubseq(KeepFresh(s, ku, kt), s)
    decreases |s|
  {
    if s != [] {
      var s' := s[..|s| - 1];
      var x := s[|s| - 1];
      KeepFreshSubseq(s', ku, kt);
      assert s == s' + [x];
      if KeepFresh(s, ku, kt) == KeepFresh(s', ku, kt) {
        SubseqAppendRight(KeepFresh(s', ku, kt), s', x);
      } else {
        SubseqAppendBoth(KeepFresh(s', ku, kt), s', x);
      }
    }
  }

  /** Nothing is dropped without cause: every input result shares one of its keys
      with a kept result. */
  lemma {:induction false} KeepFreshCovers(s: seq<Hit>, ku: Hit -> string, kt: Hit -> string)
    ensures forall m :: 0 <= m < |s| ==>
      ku(s[m]) in KeysOf(KeepFresh(s, ku, kt), ku) || kt(s[m]) in KeysOf(KeepFresh(s, ku, kt), kt)
    decreases |s|
  {
    if s != [] {
      var s' := s[..|s| - 1];
      var p := KeepFresh(s', ku, kt);
      var x := s[|s| - 1];
      KeepFreshCovers(s', ku, kt);
      KeysAppend(p, x, ku);
      KeysAppend(p, x, kt);
      var r := KeepFresh(s, ku, kt);
      assert KeysOf(p, ku) <= KeysOf(r, ku) && KeysOf(p, kt) <= KeysOf(r, kt);
      forall m | 0 <= m < |s|
        ensures ku(s[m]) in KeysOf(r, ku) || kt(s[m]) in KeysOf(r, kt)
      {
        if m < |s'| {
          assert s[m] == s'[m];
        }
      }
    }
  }

  /** The kept results of a prefix of the input are a prefix of the kept results. */
  lemma {:induction false} KeepFreshPrefix(s: seq<Hit>, i: nat, ku: Hit -> string, kt: Hit -> string)
    requires i <= |s|
    ensures var a := KeepFresh(s[..i], ku, kt);
      |a| <= |KeepFresh(s, ku, kt)| && KeepFresh(s, ku, kt)[..|a|] == a
    decreases |s| - i
  {
    if i < |s| {
      KeepFreshPrefix(s, i + 1, ku, kt);
      assert s[..i + 1][..i] == s[..i];
      var a := KeepFresh(s[..i], ku, kt);
      var b := KeepFresh(s[..i + 1], ku, kt);
      assert b == a || b == a + [s[i]];
      assert b[..|a|] == a;
    } else {
      assert s[..i] == s;
    }
  }

  /** One turn of the loop of `deduplicate_results`: a result with a seen key is
      skipped; any other is kept, numbered next, and its keys are seen. */
  lemma KeepStep(sorted: seq<Hit>, i: nat, kept: seq<Hit>, ku: Hit -> string, kt: Hit -> string)
    requires i < |sorted| && kept == KeepFresh(sorted[..i], ku, kt)
    ensures ku(sorted[i]) in KeysOf(kept, ku) || kt(sorted[i]) in KeysOf(kept, kt) ==>
      KeepFresh(sorted[..i + 1], ku, kt) == kept
    ensures !(ku(sorted[i]) in KeysOf(kept, ku) || kt(sorted[i]) in KeysOf(kept, kt)) ==>
      KeepFresh(sorted[..i + 1], ku, kt) == kept + [sorted[i]]
    ensures Numbered(kept + [sorted[i]]) == Numbered(kept) + [sorted[i].(rank := |kept| + 1)]
    ensures KeysOf(kept + [sorted[i]], ku) == KeysOf(kept, ku) + {ku(sorted[i])}
    ensures KeysOf(kept + [sorted[i]], kt) == KeysOf(kept, kt) + {kt(sorted[i])}
  {
    KeepFreshStep(sorted, i, ku, kt);
    KeysAppend(kept, sorted[i], ku);
    KeysAppend(kept, sorted[i], kt);
    NumberedAppend(kept, sorted[i]);
  }

  /** The loop of `deduplicate_results` over the sorted results, for the two keys it
      tracks in its sets of seen URLs and titles: it stops once num_results results
      are kept, and writes each kept result's position into its rank. */
  method KeepUnseen(sorted: seq<Hit>, numResults: int, ku: Hit -> string, kt: Hit -> string)
    returns (finalResults: seq<Hit>)
    ensures finalResults == Numbered(Limit(KeepFresh(sorted, ku, kt), numResults))
  {
    var seenUrls: set<string> := {};
    var seenTitles: set<string> := {};
    finalResults := [];
    ghost var kept: seq<Hit> := [];
    var i := 0;
    while i < |sorted|
      invariant 0 <= i <= |sorted|
      invariant kept == KeepFresh(sorted[..i], ku, kt)
      invariant finalResults == Numbered(kept)
      invariant seenUrls == KeysOf(kept, ku) && seenTitles == KeysOf(kept, kt)
      invariant numResults <= 0 ==> i == 0
      invariant 0 < numResults ==> |kept| <= numResults
    {
      if |finalResults| >= numResults {
        break;
      }
      var result := sorted[i];
      var normalizedUrl := ku(result);
      var title := kt(result);
      KeepStep(sorted, i, kept, ku, kt);
      ghost var next := KeepFresh(sorted[..i + 1], ku, kt);
      if !(normalizedUrl in seenUrls || title in seenTitles) {
        assert next == kept + [result];
        seenUrls := seenUrls + {normalizedUrl};
        seenTitles := seenTitles + {title};
        finalResults := finalResults + [result.(rank := |finalResults| + 1)];
        kept := kept + [result];
      } else {
        assert next == kept;
      }
      i := i + 1;
    }
    // either the input is used up, or exactly numResults results were kept
    KeepFreshPrefix(sorted, i, ku, kt);
    if i == |sorted| {
      assert sorted[..i] == sorted;
    }
  }

  /** `deduplicate_results(all_results, num_results)`: sort by score, then keep the
      results whose normalised URL and title are both unseen. */
  method DeduplicateResults(allResults: seq<Hit>, numResults: int) returns (finalResults: seq<Hit>)
    ensures finalResults == Deduplicated(allResults, numResults)
    ensures allResults == [] || numResults <= 0 ==> finalResults == []
    ensures 0 <= numResults ==> |finalResults| <= numResults
    ensures forall i :: 0 <= i < |finalResults| ==> finalResults[i].rank == i + 1
  {
    if |allResults| == 0 {
      return [];
    }
    var sorted := SortByScore(allResults);
    finalResults := KeepUnseen(sorted, numResults, UrlKey, TitleKey);
  }

  /** The kept results, cut at num_results, before numbering. */
  lemma LimitedKept(all: seq<Hit>, n: int)
    ensures var lim := Limit(KeepFresh(SortByScore(all), UrlKey, TitleKey), n);
      SortedDesc(lim) && DistinctBy(lim, UrlKey) && DistinctBy(lim, TitleKey)
      && IsSubseq(lim, SortByScore(all))
  {
    var sorted := SortByScore(all);
    var kf := KeepFresh(sorted, UrlKey, TitleKey);
    var lim := Limit(kf, n);
    SortByScoreSorted(all);
    KeepFreshSubseq(sorted, UrlKey, TitleKey);
    KeepFreshDistinct(sorted, UrlKey, TitleKey);
    PrefixSubseq(kf, |lim|);
    SubseqTrans(lim, kf, sorted);
    SubseqSorted(lim, sorted);
    PrefixDistinct(kf, |lim|, UrlKey);
    PrefixDistinct(kf, |lim|, TitleKey);
  }

  /** The deduplicated results: at most num_results, none at all for an empty input or
      a non-positive num_results, sorted by score, distinct in normalised URL and
      title, drawn in order from the sorted input, and numbered by position. */
  lemma DeduplicatedProperties(all: seq<Hit>, n: int)
    ensures var r := Deduplicated(all, n);
      (all == [] || n <= 0 ==> r == [])
      && (0 <= n ==> |r| <= n)
      && SortedDesc(r)
      && DistinctBy(r, UrlKey) && DistinctBy(r, TitleKey)
      && (forall i :: 0 <= i < |r| ==> r[i].rank == i + 1)
      && IsSubseq(Limit(KeepFresh(SortByScore(all), UrlKey, TitleKey), n), SortByScore(all))
  {
    LimitedKept(all, n);
    if all != [] {
      NumberedKeeps(Limit(KeepFresh(SortByScore(all), UrlKey, TitleKey), n));
    }
  }
}
