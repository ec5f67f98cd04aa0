/** A search result as the pipeline passes it around (a Python dict with the keys
    url, title, snippet, source, engine, engine_rank, quality_score and rank; a
    missing text key reads as "", a missing score as 0), and the stable descending
    sort by quality score that `sorted(..., key=quality_score, reverse=True)` and
    `list.sort` perform. */
module Results {
  import opened Base

  datatype Hit = Hit(
    url: string,
    title: string,
    snippet: string,
    source: string,
    engine: string,
    engineRank: int,
    qualityScore: real,
    rank: int)

  /** Non-increasing by quality score. */
  predicate SortedDesc(s: seq<Hit>)
  {
    forall i, j :: 0 <= i < j < |s| ==> s[i].qualityScore >= s[j].qualityScore
  }

  /** Insert x in front of the first element scoring no more than x. */
  function InsertDesc(x: Hit, s: seq<Hit>): (r: seq<Hit>)
    ensures |r| == |s| + 1
    ensures multiset(r) == multiset(s) + multiset{x}
  {
    if s == [] || x.qualityScore >= s[0].qualityScore then [x] + s
    else
      assert s == [s[0]] + s[1..];
      [s[0]] + InsertDesc(x, s[1..])
  }

  /** Python's stable descending sort on quality_score. */
  function SortByScore(s: seq<Hit>): (r: seq<Hit>)
    ensures |r| == |s|
    ensures multiset(r) == multiset(s)
  {
    if s == [] then []
    else
      assert s == [s[0]] + s[1..];
      InsertDesc(s[0], SortByScore(s[1..]))
  }

  /** Inserting brings in x and nothing else. */
  lemma {:induction false} InsertDescIn(x: Hit, s: seq<Hit>)
    ensures forall y :: y in InsertDesc(x, s) ==> y == x || y in s
    decreases |s|
  {
    if !(s == [] || x.qualityScore >= s[0].qualityScore) {
      InsertDescIn(x, s[1..]);
      assert forall y :: y in s[1..] ==> y in s;
    }
  }

  lemma {:induction false} InsertDescSorted(x: Hit, s: seq<Hit>)
    requires SortedDesc(s)
    ensures SortedDesc(InsertDesc(x, s))
    decreases |s|
  {
    if !(s == [] || x.qualityScore >= s[0].qualityScore) {
      InsertDescSorted(x, s[1..]);
      var t := InsertDesc(x, s[1..]);
      InsertDescIn(x, s[1..]);
      forall k | 0 <= k < |t| ensures s[0].qualityScore >= t[k].qualityScore {
        assert t[k] in t;
        if t[k] != x {
          var m :| 0 <= m < |s[1..]| && s[1..][m] == t[k];
          assert s[m + 1] == t[k];
        }
      }
      var r := [s[0]] + t;
      forall i, j | 0 <= i < j < |r| ensures r[i].qualityScore >= r[j].qualityScore {
        assert r[j] == t[j - 1];
        if i > 0 { assert r[i] == t[i - 1]; }
      }
    }
  }

  /** The sort brings in nothing new. */
  lemma {:induction false} SortByScoreIn(s: seq<Hit>)
    ensures forall y :: y in SortByScore(s) ==> y in s
    decreases |s|
  {
    if s != [] {
      SortByScoreIn(s[1..]);
      InsertDescIn(s[0], SortByScore(s[1..]));
      assert forall y :: y in s[1..] ==> y in s;
    }
  }

  /** The sort returns its input reordered, non-increasing by score. */
  lemma {:induction false} SortByScoreSorted(s: seq<Hit>)
    ensures SortedDesc(SortByScore(s))
    decreases |s|
  {
    if s != [] {
      SortByScoreSorted(s[1..]);
      InsertDescSorted(s[0], SortByScore(s[1..]));
    }
  }

  /** The elements of s that score exactly v, in order. */
  function WithScore(s: seq<Hit>, v: real): seq<Hit>
  {
    if s == [] then [] else (if s[0].qualityScore == v then [s[0]] else []) + WithScore(s[1..], v)
  }

  lemma {:induction false} InsertDescWithScore(x: Hit, s: seq<Hit>, v: real)
    requires SortedDesc(s)
    ensures WithScore(InsertDesc(x, s), v)
      == (if x.qualityScore == v then [x] else []) + WithScore(s, v)
    decreases |s|
  {
    if s == [] || x.qualityScore >= s[0].qualityScore {
      assert ([x] + s)[1..] == s;
    } else {
      InsertDescWithScore(x, s[1..], v);
      assert ([s[0]] + InsertDesc(x, s[1..]))[1..] == InsertDesc(x, s[1..]);
      if x.qualityScore == v {
        // s[0] scores above x, so it is not among the elements scoring v
        assert s[0].qualityScore != v;
      }
    }
  }

  /** Stability: among results with equal scores the input order is kept. */
  lemma {:induction false} SortByScoreStable(s: seq<Hit>, v: real)
    ensures WithScore(SortByScore(s), v) == WithScore(s, v)
    decreases |s|
  {
    if s != [] {
      SortByScoreStable(s[1..], v);
      SortByScoreSorted(s[1..]);
      InsertDescWithScore(s[0], SortByScore(s[1..]), v);
    }
  }

  /** Dropping elements keeps a sorted list sorted. */
  lemma {:induction false} SubseqSorted(a: seq<Hit>, b: seq<Hit>)
    requires IsSubseq(a, b) && SortedDesc(b)
    ensures SortedDesc(a)
    decreases |b|
  {
    if a != [] {
      var b' := b[..|b| - 1];
      assert SortedDesc(b');
      if a[|a| - 1] == b[|b| - 1] {
        var a' := a[..|a| - 1];
        SubseqSorted(a', b');
        SubseqElements(a', b');
        forall i | 0 <= i < |a'| ensures a'[i].qualityScore >= a[|a| - 1].qualityScore {
          assert a'[i] in multiset(b');
          var m :| 0 <= m < |b'| && b'[m] == a'[i];
        }
      } else {
        SubseqSorted(a, b');
      }
    }
  }

  /** A prefix of a sorted list is sorted. */
  lemma SliceToSorted(s: seq<Hit>, k: int)
    requires SortedDesc(s)
    ensures SortedDesc(SliceTo(s, k))
  {
  }
}
