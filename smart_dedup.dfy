/** Smart deduplication: word-3-gram Jaccard similarity of titles and snippets, the
    registered domain of a URL, a content-quality re-score, a greedy semantic filter
    and a per-domain cap, chained by `SmartDeduplicator.process_results`. */
module SmartDedup {
  import opened Base
  import opened Text
  import opened Urls
  import opened Results

  /** `SmartDeduplicator()` defaults. */
  const DefaultThreshold: real := 0.7
  const DefaultMaxPerDomain: int := 2

  /** The regex class `\w`, restricted to ASCII. */
  predicate IsWordChar(c: char) { IsAlpha(c) || IsDigit(c) || c == '_' }

  /** `re.sub(r'[^\w\s]', ' ', t)` */
  function BlankPunctuation(t: string): (r: string)
    ensures |r| == |t|
    ensures forall i :: 0 <= i < |t| ==> r[i] == (if IsWordChar(t[i]) || IsSpace(t[i]) then t[i] else ' ')
  {
    seq(|t|, i requires 0 <= i < |t| => if IsWordChar(t[i]) || IsSpace(t[i]) then t[i] else ' ')
  }

  /** `re.sub(r'[^\w\s]', ' ', t.lower()).strip()` */
  function NormalizeText(t: string): string
  {
    Strip(BlankPunctuation(Lower(t)))
  }

  /** Every run of three consecutive words, joined by single spaces. */
  function Triples(ws: seq<string>): set<string>
  {
    set i | 0 <= i < |ws| - 2 :: Triple(ws, i)
  }

  function Triple(ws: seq<string>, i: nat): string
    requires i + 3 <= |ws|
  {
    Join(ws[i..i + 3], " ")
  }

  /** `get_3grams` on a text already split into words: the words themselves for
      fewer than three words, otherwise the word triples. */
  function GramsOf(ws: seq<string>): set<string>
  {
    if |ws| < 3 then set w | w in ws else Triples(ws)
  }

  function Grams(t: string): set<string>
  {
    GramsOf(Words(t))
  }

  lemma {:induction false} CardSubset<T>(a: set<T>, b: set<T>)
    requires a <= b
    ensures |a| <= |b|
    decreases |b|
  {
    if a != {} {
      var x :| x in a;
      CardSubset(a - {x}, b - {x});
    }
  }

  /** Size of the intersection over size of the union, once both gram sets are known;
      two empty sets count as identical. */
  function GramSimilarity(g1: set<string>, g2: set<string>): (r: real)
    ensures 0.0 <= r <= 1.0
    ensures g1 * g2 == {} && (g1 != {} || g2 != {}) ==> r == 0.0
  {
    if g1 == {} && g2 == {} then 1.0
    else if g1 == {} || g2 == {} then 0.0
    else
      var inter := |g1 * g2|;
      var union := |g1 + g2|;
      CardSubset(g1 * g2, g1 + g2);
      if union > 0 then inter as real / union as real else 0.0
  }

  /** The similarity of two normalised texts. */
  function NormalizedSimilarity(t1: string, t2: string): (r: real)
    ensures 0.0 <= r <= 1.0
  {
    if |t1| < 3 || |t2| < 3 then (if t1 == t2 then 1.0 else 0.0)
    else GramSimilarity(Grams(t1), Grams(t2))
  }

  /** `jaccard_similarity_3gram(text1, text2)` */
  function Jaccard(text1: string, text2: string): (r: real)
    ensures 0.0 <= r <= 1.0
    ensures text1 == "" || text2 == "" ==> r == 0.0
  {
    if text1 == "" || text2 == "" then 0.0
    else NormalizedSimilarity(NormalizeText(text1), NormalizeText(text2))
  }

  /** Similarity does not depend on argument order. */
  lemma JaccardSymmetric(a: string, b: string)
    ensures Jaccard(a, b) == Jaccard(b, a)
  {
    if a != "" && b != "" {
      NormalizedSymmetric(NormalizeText(a), NormalizeText(b));
    }
  }

  lemma NormalizedSymmetric(t1: string, t2: string)
    ensures NormalizedSimilarity(t1, t2) == NormalizedSimilarity(t2, t1)
  {
    if |t1| >= 3 && |t2| >= 3 {
      var g1 := Grams(t1);
      var g2 := Grams(t2);
      assert g1 * g2 == g2 * g1 && g1 + g2 == g2 + g1;
    }
  }

  /** If either normalised text is shorter than three characters, only equality counts. */
  lemma JaccardShort(a: string, b: string)
    requires a != "" && b != ""
    requires |NormalizeText(a)| < 3 || |NormalizeText(b)| < 3
    ensures Jaccard(a, b) == if NormalizeText(a) == NormalizeText(b) then 1.0 else 0.0
  {
  }

  /** A normalised non-empty text has at least one gram. */
  lemma GramsNonEmpty(t: string)
    requires t != [] && !IsSpace(t[0])
    ensures Grams(t) != {}
  {
    var ws := Words(t);
    assert !AllSpace(t);
    if |ws| < 3 {
      assert ws[0] in GramsOf(ws);
    } else {
      assert Triple(ws, 0) in Triples(ws);
    }
  }

  /** A non-empty text is fully similar to itself. */
  lemma JaccardSelf(t: string)
    requires t != ""
    ensures Jaccard(t, t) == 1.0
  {
    NormalizedSelf(NormalizeText(t));
  }

  lemma NormalizedSelf(n: string)
    requires n == [] || !IsSpace(n[0])
    ensures NormalizedSimilarity(n, n) == 1.0
  {
    if |n| >= 3 {
      GramsNonEmpty(n);
      var g := Grams(n);
      assert g * g == g && g + g == g;
    }
  }

  /** Three words joined by spaces contain a space. */
  lemma JoinThreeHasSpace(ws: seq<string>)
    requires |ws| == 3
    ensures Contains(Join(ws, " "), ' ')
  {
    var j := Join(ws, " ");
    assert j == ws[0] + " " + Join(ws[1..], " ");
    assert j[|ws[0]|] == ' ';
  }

  /** Gram sets of a text of one or two words and of a text of three or more words
      never overlap: the first are single words, the second contain spaces. */
  lemma GramsDisjoint(wa: seq<string>, wb: seq<string>)
    requires forall i :: 0 <= i < |wa| ==> IsWord(wa[i])
    requires |wa| < 3 && |wb| >= 3
    ensures GramsOf(wa) * GramsOf(wb) == {}
  {
    forall g | g in GramsOf(wb) ensures Contains(g, ' ') {
      var i :| 0 <= i < |wb| - 2 && g == Triple(wb, i);
      JoinThreeHasSpace(wb[i..i + 3]);
    }
    forall g | g in GramsOf(wa) ensures !Contains(g, ' ') {
      var m :| 0 <= m < |wa| && wa[m] == g;
      assert IsWord(wa[m]);
    }
  }

  /** Texts of one or two words are compared word by word, and texts of three or more
      words by word triples, so such a pair always scores 0. */
  lemma JaccardShortVersusLong(a: string, b: string)
    requires a != "" && b != ""
    requires |NormalizeText(a)| >= 3 && |NormalizeText(b)| >= 3
    requires |Words(NormalizeText(a))| < 3 && |Words(NormalizeText(b))| >= 3
    ensures Jaccard(a, b) == 0.0
  {
    NormalizedShortVersusLong(NormalizeText(a), NormalizeText(b));
  }

  lemma NormalizedShortVersusLong(ta: string, tb: string)
    requires |ta| >= 3 && |tb| >= 3 && !IsSpace(tb[0])
    requires |Words(ta)| < 3 && |Words(tb)| >= 3
    ensures NormalizedSimilarity(ta, tb) == 0.0
  {
    GramsDisjoint(Words(ta), Words(tb));
    GramsNonEmpty(tb);
  }

  /** `extract_domain(url)`: the netloc lower-cased with one leading "www." removed, or
      the whole URL lower-cased when there is no netloc or `urlparse` raises. */
  function ExtractDomain(url: string): (d: string)
    ensures forall i :: 0 <= i < |d| ==> !IsUpperChar(d[i])
    ensures UrlParse(url).Some? && UrlParse(url).value.netloc != "" ==>
      var n := Lower(UrlParse(url).value.netloc);
      n == d || n == "www." + d
    ensures UrlParse(url).Some? && UrlParse(url).value.netloc != "" ==>
      var n := Lower(UrlParse(url).value.netloc);
      d == n <==> !StartsWith(n, "www.")
    ensures UrlParse(url).None? || UrlParse(url).value.netloc == "" ==> d == Lower(url)
  {
    match UrlParse(url)
    case None => Lower(url)
    case Some(p) =>
      var domain := Lower(p.netloc);
      if domain == "" then Lower(url)
      else if StartsWith(domain, "www.") then domain[4..]
      else domain
  }

  /** `calculate_content_quality(result)`. */
  function ContentQuality(h: Hit): (r: real)
    ensures r <= 10.0
    ensures r <= h.qualityScore + 0.35
    ensures r >= (if h.qualityScore - 0.3 < 10.0 then h.qualityScore - 0.3 else 10.0)
  {
    var snippet := h.snippet;
    var lengthBonus := if |snippet| >= 100 then 0.2 else if |snippet| >= 50 then 0.1 else 0.0;
    var low := Lower(snippet);
    var structureBonus :=
      if Contains(low, '•') || Contains(low, ':') || Contains(low, '|')
        || Contains(low, '—') || Contains(low, '–') then 0.1 else 0.0;
    var thinPenalty := if |snippet| < 20 || Strip(snippet) == "" then 0.3 else 0.0;
    var titleBonus := if |h.title| > 10 && !IsUpperStr(h.title) then 0.05 else 0.0;
    var total := h.qualityScore + lengthBonus + structureBonus - thinPenalty + titleBonus;
    if total < 10.0 then total else 10.0
  }

  /** A snippet under 20 characters costs at least 0.15 overall: it earns no length
      bonus, and the other bonuses together are smaller than the penalty. */
  lemma ThinSnippetPenalty(h: Hit)
    requires |h.snippet| < 20
    ensures ContentQuality(h) <= h.qualityScore - 0.15
  {
  }

  /** A long structured snippet under a long mixed-case title earns every bonus. */
  lemma RichContentBonus(h: Hit)
    requires |h.snippet| >= 100 && Contains(h.snippet, ':')
    requires |h.title| > 10 && !IsUpperStr(h.title)
    requires h.qualityScore <= 9.65
    ensures ContentQuality(h) == h.qualityScore + 0.35
  {
    var k :| 0 <= k < |h.snippet| && h.snippet[k] == ':';
    assert Lower(h.snippet)[k] == ':';
    assert !AllSpace(h.snippet);
  }

  /** The domain a result is counted under. */
  function DomainKey(h: Hit): string { ExtractDomain(h.url) }

  /** The results of s whose key is d, in order. */
  function Filter(s: seq<Hit>, key: Hit -> string, d: string): seq<Hit>
    decreases |s|
  {
    if s == [] then []
    else Filter(s[..|s| - 1], key, d) + (if key(s[|s| - 1]) == d then [s[|s| - 1]] else [])
  }

  lemma FilterAppend(s: seq<Hit>, x: Hit, key: Hit -> string, d: string)
    ensures Filter(s + [x], key, d) == Filter(s, key, d) + (if key(x) == d then [x] else [])
  {
    assert (s + [x])[..|s|] == s;
  }

  /** A prefix has no more entries with a given key than the whole list. */
  lemma {:induction false} FilterPrefix(s: seq<Hit>, k: nat, key: Hit -> string, d: string)
    requires k <= |s|
    ensures |Filter(s[..k], key, d)| <= |Filter(s, key, d)|
    decreases |s|
  {
    if k < |s| {
      FilterPrefix(s[..|s| - 1], k, key, d);
      assert s[..|s| - 1][..k] == s[..k];
    } else {
      assert s[..k] == s;
    }
  }

  /** The per-key cap as a filter over prefixes: a result is kept while fewer than
      maxPerDomain results with its key have been kept. */
  function Diverse(s: seq<Hit>, maxPerDomain: int, key: Hit -> string): seq<Hit>
    decreases |s|
  {
    if s == [] then []
    else
      var p := Diverse(s[..|s| - 1], maxPerDomain, key);
      var x := s[|s| - 1];
      if |Filter(p, key, key(x))| < maxPerDomain then p + [x] else p
  }

  lemma DiverseStep(s: seq<Hit>, i: nat, m: int, key: Hit -> string)
    requires i < |s|
    ensures var p := Diverse(s[..i], m, key);
      Diverse(s[..i + 1], m, key) == if |Filter(p, key, key(s[i]))| < m then p + [s[i]] else p
  {
    assert s[..i + 1][..i] == s[..i];
    assert s[..i + 1][i] == s[i];
  }

  /** For every domain, the kept results of that domain are exactly its first
      maxPerDomain results: the earliest ones are kept, the rest dropped. */
  lemma {:induction false} DiverseKeepsEarliest(s: seq<Hit>, m: int, key: Hit -> string, d: string)
    ensures Filter(Diverse(s, m, key), key, d) == Limit(Filter(s, key, d), m)
    decreases |s|
  {
    if s != [] {
      var s' := s[..|s| - 1];
      var x := s[|s| - 1];
      var p := Diverse(s', m, key);
      var fd := Filter(s', key, d);
      DiverseKeepsEarliest(s', m, key, d);
      DiverseKeepsEarliest(s', m, key, key(x));
      FilterAppend(p, x, key, d);
      assert Filter(s, key, d) == fd + (if key(x) == d then [x] else []);
      if key(x) == d {
        if |Limit(fd, m)| < m {
          assert Limit(fd, m) == fd;
        } else if 0 < m {
          assert (fd + [x])[..m] == fd[..m];
        }
      }
    }
  }

  /** The cap keeps an ordered selection of its input. */
  lemma {:induction false} DiverseSubseq(s: seq<Hit>, m: int, key: Hit -> string)
    ensures IsSubseq(Diverse(s, m, key), s)
    decreases |s|
  {
    if s != [] {
      var s' := s[..|s| - 1];
      var x := s[|s| - 1];
      DiverseSubseq(s', m, key);
      assert s == s' + [x];
      if Diverse(s, m, key) == Diverse(s', m, key) {
        SubseqAppendRight(Diverse(s', m, key), s', x);
      } else {
        SubseqAppendBoth(Diverse(s', m, key), s', x);
      }
    }
  }

  /** The counter dict holds, for every domain it has seen, how many kept results
      have that domain; domains it has not seen have none. */
  ghost predicate CountsMatch(counts: map<string, int>, kept: seq<Hit>, key: Hit -> string)
  {
    (forall d :: d in counts ==> counts[d] == |Filter(kept, key, d)|)
    && (forall d :: d !in counts ==> Filter(kept, key, d) == [])
  }

  lemma CountsInsertZero(counts: map<string, int>, kept: seq<Hit>, key: Hit -> string, d: string)
    requires CountsMatch(counts, kept, key) && d !in counts
    ensures CountsMatch(counts[d := 0], kept, key)
  {
  }

  lemma CountsBump(counts: map<string, int>, kept: seq<Hit>, key: Hit -> string, x: Hit)
    requires CountsMatch(counts, kept, key) && key(x) in counts
    ensures CountsMatch(counts[key(x) := counts[key(x)] + 1], kept + [x], key)
  {
    forall d ensures Filter(kept + [x], key, d) == Filter(kept, key, d) + (if key(x) == d then [x] else []) {
      FilterAppend(kept, x, key, d);
    }
  }

  /** `enforce_domain_diversity(results, max_per_domain)`, with the defaultdict of
      per-domain counts (reading a missing domain inserts it with count 0). */
  method EnforceDomainDiversity(results: seq<Hit>, maxPerDomain: int) returns (filtered: seq<Hit>)
    ensures filtered == Diverse(results, maxPerDomain, DomainKey)
    ensures results == [] ==> filtered == []
  {
    if |results| == 0 {
      return results;
    }
    var domainCounts: map<string, int> := map[];
    filtered := [];
    for i := 0 to |results|
      invariant filtered == Diverse(results[..i], maxPerDomain, DomainKey)
      invariant CountsMatch(domainCounts, filtered, DomainKey)
    {
      var result := results[i];
      var domain := DomainKey(result);
      DiverseStep(results, i, maxPerDomain, DomainKey);
      if domain !in domainCounts {
        CountsInsertZero(domainCounts, filtered, DomainKey, domain);
        domainCounts := domainCounts[domain := 0];
      }
      if domainCounts[domain] < maxPerDomain {
        CountsBump(domainCounts, filtered, DomainKey, result);
        domainCounts := domainCounts[domain := domainCounts[domain] + 1];
        filtered := filtered + [result];
      }
    }
    assert results[..|results|] == results;
  }

  /** The title or the snippet of the candidate is at least threshold-similar to the
      existing result's. */
  predicate Similar(candidate: Hit, existing: Hit, threshold: real)
  {
    Jaccard(candidate.title, existing.title) >= threshold
      || Jaccard(candidate.snippet, existing.snippet) >= threshold
  }

  /** Similarity at a fixed threshold, as a relation the filter is generic in. */
  function SimilarAt(threshold: real): (Hit, Hit) -> bool
  {
    (c: Hit, e: Hit) => Similar(c, e, threshold)
  }

  /** Similarity of results is symmetric. */
  lemma SimilarSymmetric(a: Hit, b: Hit, threshold: real)
    ensures Similar(a, b, threshold) == Similar(b, a, threshold)
  {
    JaccardSymmetric(a.title, b.title);
    JaccardSymmetric(a.snippet, b.snippet);
  }

  predicate SimilarToAny(candidate: Hit, kept: seq<Hit>, sim: (Hit, Hit) -> bool)
  {
    exists j :: 0 <= j < |kept| && sim(candidate, kept[j])
  }

  /** The greedy semantic filter: a result is kept unless it is similar to a result
      kept before it. */
  function Semantic(s: seq<Hit>, sim: (Hit, Hit) -> bool): seq<Hit>
    decreases |s|
  {
    if s == [] then []
    else
      var p := Semantic(s[..|s| - 1], sim);
      var x := s[|s| - 1];
      if SimilarToAny(x, p, sim) then p else p + [x]
  }

  lemma SemanticStep(s: seq<Hit>, i: nat, sim: (Hit, Hit) -> bool)
    requires i < |s|
    ensures var p := Semantic(s[..i], sim);
      Semantic(s[..i + 1], sim) == if SimilarToAny(s[i], p, sim) then p else p + [s[i]]
  {
    assert s[..i + 1][..i] == s[..i];
    assert s[..i + 1][i] == s[i];
  }

  /** The kept results of a prefix of the input are a prefix of the kept results. */
  lemma {:induction false} SemanticPrefix(s: seq<Hit>, i: nat, sim: (Hit, Hit) -> bool)
    requires i <= |s|
    ensures |Semantic(s[..i], sim)| <= |Semantic(s, sim)|
    ensures Semantic(s, sim)[..|Semantic(s[..i], sim)|] == Semantic(s[..i], sim)
    decreases |s| - i
  {
    if i < |s| {
      SemanticPrefix(s, i + 1, sim);
      SemanticStep(s, i, sim);
      var a := Semantic(s[..i], sim);
      var b := Semantic(s[..i + 1], sim);
      assert b[..|a|] == a;
    } else {
      assert s[..i] == s;
    }
  }

  /** The semantic filter keeps an ordered selection of its input. */
  lemma {:induction false} SemanticSubseq(s: seq<Hit>, sim: (Hit, Hit) -> bool)
    ensures IsSubseq(Semantic(s, sim), s)
    decreases |s|
  {
    if s != [] {
      var s' := s[..|s| - 1];
      var x := s[|s| - 1];
      SemanticSubseq(s', sim);
      assert s == s' + [x];
      if Semantic(s, sim) == Semantic(s', sim) {
        SubseqAppendRight(Semantic(s', sim), s', x);
      } else {
        SubseqAppendBoth(Semantic(s', sim), s', x);
      }
    }
  }

  /** The first result is always kept. */
  lemma SemanticKeepsFirst(s: seq<Hit>, sim: (Hit, Hit) -> bool)
    requires s != []
    ensures Semantic(s, sim) != [] && Semantic(s, sim)[0] == s[0]
  {
    SemanticStep(s, 0, sim);
    assert s[..0] == [];
    SemanticPrefix(s, 1, sim);
  }

  /** No kept result is similar to a result kept before it. */
  lemma {:induction false} SemanticPairwise(s: seq<Hit>, sim: (Hit, Hit) -> bool)
    ensures forall i, j :: 0 <= i < j < |Semantic(s, sim)| ==> !sim(Semantic(s, sim)[j], Semantic(s, sim)[i])
    decreases |s|
  {
    if s != [] {
      var s' := s[..|s| - 1];
      var x := s[|s| - 1];
      var p := Semantic(s', sim);
      SemanticPairwise(s', sim);
      if !SimilarToAny(x, p, sim) {
        var r := p + [x];
        forall i, j | 0 <= i < j < |r| ensures !sim(r[j], r[i]) {
          assert r[i] == p[i];
          if j < |p| {
            assert r[j] == p[j];
          }
        }
      }
    }
  }

  /** No two results of s are similar, in either direction. */
  predicate NoTwoSimilar(s: seq<Hit>, threshold: real)
  {
    forall i, j :: 0 <= i < j < |s| ==> !Similar(s[i], s[j], threshold) && !Similar(s[j], s[i], threshold)
  }

  /** With the similarity of titles and snippets, no two kept results are similar in
      either order. */
  lemma SemanticNoTwoSimilar(s: seq<Hit>, threshold: real)
    ensures NoTwoSimilar(Semantic(s, SimilarAt(threshold)), threshold)
  {
    var r := Semantic(s, SimilarAt(threshold));
    SemanticPairwise(s, SimilarAt(threshold));
    forall i, j | 0 <= i < j < |r|
      ensures !Similar(r[j], r[i], threshold) && !Similar(r[i], r[j], threshold)
    {
      assert !SimilarAt(threshold)(r[j], r[i]);
      SimilarSymmetric(r[i], r[j], threshold);
    }
  }

  /** Every result is either kept at its turn, or dropped because it is similar to a
      result kept before its turn. */
  lemma SemanticCovers(s: seq<Hit>, sim: (Hit, Hit) -> bool, k: nat)
    requires k < |s|
    ensures Semantic(s[..k + 1], sim) == Semantic(s[..k], sim) + [s[k]]
      || exists j :: 0 <= j < |Semantic(s[..k], sim)| <= |Semantic(s, sim)| && sim(s[k], Semantic(s, sim)[j])
  {
    SemanticStep(s, k, sim);
    SemanticPrefix(s, k, sim);
    var p := Semantic(s[..k], sim);
    if SimilarToAny(s[k], p, sim) {
      var j :| 0 <= j < |p| && sim(s[k], p[j]);
      assert Semantic(s, sim)[j] == p[j];
    }
  }

  /** Similarity decided from the two scores the loop computes. */
  lemma SimilarByScores(c: Hit, e: Hit, t: real, titleSimilarity: real, snippetSimilarity: real)
    requires titleSimilarity == Jaccard(c.title, e.title) && snippetSimilarity == Jaccard(c.snippet, e.snippet)
    ensures Similar(c, e, t) == (titleSimilarity >= t || snippetSimilarity >= t)
  {
  }

  lemma NoneSimilarExtend(candidate: Hit, kept: seq<Hit>, threshold: real, k: nat)
    requires k < |kept| && !Similar(candidate, kept[k], threshold)
    requires forall j :: 0 <= j < k ==> !Similar(candidate, kept[j], threshold)
    ensures forall j :: 0 <= j < k + 1 ==> !Similar(candidate, kept[j], threshold)
  {
  }

  lemma SimilarToOne(candidate: Hit, kept: seq<Hit>, threshold: real, k: nat)
    requires k < |kept| && Similar(candidate, kept[k], threshold)
    ensures SimilarToAny(candidate, kept, SimilarAt(threshold))
  {
    assert SimilarAt(threshold)(candidate, kept[k]);
  }

  lemma SimilarToNone(candidate: Hit, kept: seq<Hit>, threshold: real)
    requires forall j :: 0 <= j < |kept| ==> !Similar(candidate, kept[j], threshold)
    ensures !SimilarToAny(candidate, kept, SimilarAt(threshold))
  {
    assert forall j :: 0 <= j < |kept| ==> !SimilarAt(threshold)(candidate, kept[j]);
  }

  /** The inner loop of `semantic_deduplication`: compare the candidate's title and
      snippet with each kept result's, and stop at the first similar one. */
  method IsDuplicate(candidate: Hit, deduplicated: seq<Hit>, threshold: real) returns (isDuplicate: bool)
    ensures isDuplicate == SimilarToAny(candidate, deduplicated, SimilarAt(threshold))
  {
    var k := 0;
    while k < |deduplicated|
      invariant 0 <= k <= |deduplicated|
      invariant forall j :: 0 <= j < k ==> !Similar(candidate, deduplicated[j], threshold)
    {
      var existing := deduplicated[k];
      var titleSimilarity := Jaccard(candidate.title, existing.title);
      var snippetSimilarity := Jaccard(candidate.snippet, existing.snippet);
      SimilarByScores(candidate, existing, threshold, titleSimilarity, snippetSimilarity);
      if titleSimilarity >= threshold || snippetSimilarity >= threshold {
        SimilarToOne(candidate, deduplicated, threshold, k);
        return true;
      }
      NoneSimilarExtend(candidate, deduplicated, threshold, k);
      k := k + 1;
    }
    SimilarToNone(candidate, deduplicated, threshold);
    return false;
  }

  /** `semantic_deduplication(results, similarity_threshold)`: keep each candidate
      that is not similar to a result kept before it. */
  method SemanticDeduplication(results: seq<Hit>, threshold: real) returns (deduplicated: seq<Hit>)
    ensures deduplicated == Semantic(results, SimilarAt(threshold))
  {
    if |results| == 0 {
      return results;
    }
    deduplicated := [];
    for i := 0 to |results|
      invariant deduplicated == Semantic(results[..i], SimilarAt(threshold))
    {
      var candidate := results[i];
      var isDuplicate := IsDuplicate(candidate, deduplicated, threshold);
      SemanticStep(results, i, SimilarAt(threshold));
      if !isDuplicate {
        deduplicated := deduplicated + [candidate];
      }
    }
    assert results[..|results|] == results;
  }

  /** Every result with its quality score replaced by `calculate_content_quality`. */
  function Rescored(s: seq<Hit>, score: Hit -> real): (r: seq<Hit>)
    ensures |r| == |s|
    ensures forall i :: 0 <= i < |s| ==> r[i] == s[i].(qualityScore := score(s[i]))
  {
    seq(|s|, i requires 0 <= i < |s| => s[i].(qualityScore := score(s[i])))
  }

  lemma RescoredStep(s: seq<Hit>, i: nat, score: Hit -> real)
    requires i < |s|
    ensures Rescored(s[..i + 1], score) == Rescored(s[..i], score) + [s[i].(qualityScore := score(s[i]))]
  {
    assert forall j :: 0 <= j < i ==> s[..i + 1][j] == s[..i][j];
  }

  /** What `process_results` returns. */
  function Processed(results: seq<Hit>, threshold: real, maxPerDomain: int): seq<Hit>
  {
    if results == [] then []
    else Diverse(Semantic(SortByScore(Rescored(results, ContentQuality)), SimilarAt(threshold)), maxPerDomain, DomainKey)
  }

  /** `SmartDeduplicator(threshold, max_per_domain).process_results(results)`: re-score,
      re-sort, drop semantic duplicates, cap each domain. */
  method ProcessResults(results: seq<Hit>, threshold: real, maxPerDomain: int) returns (finalResults: seq<Hit>)
    ensures finalResults == Processed(results, threshold, maxPerDomain)
  {
    if |results| == 0 {
      return results;
    }
    var rescored: seq<Hit> := [];
    for i := 0 to |results|
      invariant rescored == Rescored(results[..i], ContentQuality)
    {
      var result := results[i];
      RescoredStep(results, i, ContentQuality);
      rescored := rescored + [result.(qualityScore := ContentQuality(result))];
    }
    assert results[..|results|] == results;
    var resultsSorted := SortByScore(rescored);
    var deduplicated := SemanticDeduplication(resultsSorted, threshold);
    finalResults := EnforceDomainDiversity(deduplicated, maxPerDomain);
  }

  /** Dropping results keeps a list free of similar pairs. */
  lemma SubseqNoTwoSimilar(a: seq<Hit>, b: seq<Hit>, threshold: real)
    requires IsSubseq(a, b) && NoTwoSimilar(b, threshold)
    ensures NoTwoSimilar(a, threshold)
  {
    var apart := (x: Hit, y: Hit) => !Similar(x, y, threshold) && !Similar(y, x, threshold);
    assert forall i, j :: 0 <= i < j < |b| ==> apart(b[i], b[j]);
    SubseqPairwise(a, b, apart);
  }

  /** The pipeline keeps no two similar results. */
  lemma ProcessedNoTwoSimilar(results: seq<Hit>, threshold: real, maxPerDomain: int)
    ensures NoTwoSimilar(Processed(results, threshold, maxPerDomain), threshold)
  {
    if results != [] {
      var sem := Semantic(SortByScore(Rescored(results, ContentQuality)), SimilarAt(threshold));
      SemanticNoTwoSimilar(SortByScore(Rescored(results, ContentQuality)), threshold);
      DiverseSubseq(sem, maxPerDomain, DomainKey);
      SubseqNoTwoSimilar(Processed(results, threshold, maxPerDomain), sem, threshold);
    }
  }

  /** The pipeline's output is an ordered selection of the re-scored, re-sorted input:
      no longer than the input, sorted by the new score, with no two results similar,
      and at most maxPerDomain results per domain. */
  lemma ProcessedProperties(results: seq<Hit>, threshold: real, maxPerDomain: int)
    ensures var r := Processed(results, threshold, maxPerDomain);
      |r| <= |results|
      && SortedDesc(r)
      && IsSubseq(r, SortByScore(Rescored(results, ContentQuality)))
      && (forall d :: |Filter(r, DomainKey, d)| <= (if maxPerDomain < 0 then 0 else maxPerDomain))
      && NoTwoSimilar(r, threshold)
  {
    var r := Processed(results, threshold, maxPerDomain);
    ProcessedNoTwoSimilar(results, threshold, maxPerDomain);
    if results == [] {
      SubseqRefl<Hit>([]);
      forall d ensures |Filter(r, DomainKey, d)| <= (if maxPerDomain < 0 then 0 else maxPerDomain) { }
    } else {
      var sorted := SortByScore(Rescored(results, ContentQuality));
      var sem := Semantic(sorted, SimilarAt(threshold));
      SortByScoreSorted(Rescored(results, ContentQuality));
      SemanticSubseq(sorted, SimilarAt(threshold));
      DiverseSubseq(sem, maxPerDomain, DomainKey);
      SubseqTrans(r, sem, sorted);
      SubseqElements(r, sorted);
      SubseqSorted(r, sorted);
      forall d ensures |Filter(r, DomainKey, d)| <= (if maxPerDomain < 0 then 0 else maxPerDomain) {
        DiverseKeepsEarliest(sem, maxPerDomain, DomainKey, d);
      }
    }
  }
}
