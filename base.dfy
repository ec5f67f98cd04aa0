/** Shared vocabulary of the model: optional values, Python's `s[:k]` slice,
    the subsequence relation that every filtering stage preserves, and
    insertion-ordered string-keyed counters (a Python dict of ints, in the
    order its keys were first inserted). */
module Base {

  datatype Option<T> = None | Some(value: T)

  /** Python's `s[:k]`: a non-negative k keeps the first k elements, a negative
      k drops the last -k elements. */
  function SliceTo<T>(s: seq<T>, k: int): (r: seq<T>)
    ensures |r| <= |s| && r == s[..|r|]
    ensures 0 <= k ==> |r| == (if k < |s| then k else |s|)
    ensures k < 0 ==> |r| == (if |s| + k < 0 then 0 else |s| + k)
  {
    if 0 <= k then (if k < |s| then s[..k] else s)
    else if |s| + k < 0 then []
    else s[..|s| + k]
  }

  /** The first n elements of s, or none at all when n is not positive: what a loop
      that stops once it has collected n elements keeps. */
  function Limit<T>(s: seq<T>, n: int): (r: seq<T>)
    ensures |r| <= |s| && r == s[..|r|]
    ensures n <= 0 ==> r == []
    ensures 0 <= n ==> |r| == (if n < |s| then n else |s|)
  {
    if n <= 0 then [] else if n < |s| then s[..n] else s
  }

  /** a is a subsequence of b: a can be obtained from b by deleting elements.
      Matching is done from the end, which suits lists grown by appending. */
  predicate IsSubseq<T(==)>(a: seq<T>, b: seq<T>)
    decreases |b|
  {
    if a == [] then true
    else if b == [] then false
    else if a[|a| - 1] == b[|b| - 1] then IsSubseq(a[..|a| - 1], b[..|b| - 1])
    else IsSubseq(a, b[..|b| - 1])
  }

  /** Appending to the larger sequence keeps the relation. */
  lemma {:induction false} SubseqAppendRight<T>(a: seq<T>, b: seq<T>, x: T)
    requires IsSubseq(a, b)
    ensures IsSubseq(a, b + [x])
    decreases |b|, 1
  {
    assert (b + [x])[..|b|] == b;
    if a != [] && a[|a| - 1] == x {
      SubseqDropLast(a, b);
    }
  }

  /** Dropping the last element of the smaller sequence keeps the relation. */
  lemma {:induction false} SubseqDropLast<T>(a: seq<T>, b: seq<T>)
    requires a != [] && IsSubseq(a, b)
    ensures IsSubseq(a[..|a| - 1], b)
    decreases |b|, 0
  {
    var b' := b[..|b| - 1];
    assert b == b' + [b[|b| - 1]];
    if a[|a| - 1] == b[|b| - 1] {
      SubseqAppendRight(a[..|a| - 1], b', b[|b| - 1]);
    } else {
      SubseqDropLast(a, b');
      SubseqAppendRight(a[..|a| - 1], b', b[|b| - 1]);
    }
  }

  /** Appending the same element to both sides keeps the relation. */
  lemma SubseqAppendBoth<T>(a: seq<T>, b: seq<T>, x: T)
    requires IsSubseq(a, b)
    ensures IsSubseq(a + [x], b + [x])
  {
    assert (a + [x])[..|a|] == a;
    assert (b + [x])[..|b|] == b;
  }

  /** A subsequence is no longer than the sequence and draws its elements from it. */
  lemma {:induction false} SubseqElements<T>(a: seq<T>, b: seq<T>)
    requires IsSubseq(a, b)
    ensures |a| <= |b|
    ensures multiset(a) <= multiset(b)
    decreases |b|
  {
    if a != [] {
      var b' := b[..|b| - 1];
      assert b == b' + [b[|b| - 1]];
      if a[|a| - 1] == b[|b| - 1] {
        var a' := a[..|a| - 1];
        assert a == a' + [a[|a| - 1]];
        SubseqElements(a', b');
      } else {
        SubseqElements(a, b');
      }
    }
  }

  /** A relation that holds between every earlier and later element of b holds
      between every earlier and later element of a subsequence of b. */
  lemma {:induction false} SubseqPairwise<T>(a: seq<T>, b: seq<T>, ok: (T, T) -> bool)
    requires IsSubseq(a, b)
    requires forall i, j :: 0 <= i < j < |b| ==> ok(b[i], b[j])
    ensures forall i, j :: 0 <= i < j < |a| ==> ok(a[i], a[j])
    decreases |b|
  {
    if a != [] {
      var b' := b[..|b| - 1];
      assert forall i, j :: 0 <= i < j < |b'| ==> b'[i] == b[i] && b'[j] == b[j];
      if a[|a| - 1] == b[|b| - 1] {
        var a' := a[..|a| - 1];
        var x := a[|a| - 1];
        SubseqPairwise(a', b', ok);
        SubseqElements(a', b');
        forall i | 0 <= i < |a'| ensures ok(a'[i], x) {
          assert a'[i] in multiset(b');
          var m :| 0 <= m < |b'| && b'[m] == a'[i];
          assert b[m] == a'[i];
        }
        forall i, j | 0 <= i < j < |a| ensures ok(a[i], a[j]) {
          assert a[i] == a'[i];
          if j < |a'| {
            assert a[j] == a'[j];
          }
        }
      } else {
        SubseqPairwise(a, b', ok);
      }
    }
  }

  /** Every sequence is a subsequence of itself. */
  lemma {:induction false} SubseqRefl<T>(s: seq<T>)
    ensures IsSubseq(s, s)
    decreases |s|
  {
    if s != [] {
      SubseqRefl(s[..|s| - 1]);
    }
  }

  /** Every prefix of a sequence is a subsequence of it. */
  lemma {:induction false} PrefixSubseq<T>(s: seq<T>, k: nat)
    requires k <= |s|
    ensures IsSubseq(s[..k], s)
    decreases |s|
  {
    if k == |s| {
      assert s[..k] == s;
      SubseqRefl(s);
    } else {
      var s' := s[..|s| - 1];
      PrefixSubseq(s', k);
      assert s'[..k] == s[..k];
      assert s == s' + [s[|s| - 1]];
      SubseqAppendRight(s[..k], s', s[|s| - 1]);
    }
  }

  /** The subsequence relation is transitive. */
  lemma {:induction false} SubseqTrans<T>(a: seq<T>, b: seq<T>, c: seq<T>)
    requires IsSubseq(a, b) && IsSubseq(b, c)
    ensures IsSubseq(a, c)
    decreases |c|
  {
    if b == [] {
      SubseqElements(a, b);
    } else if a != [] {
      SubseqElements(b, c);
      var c' := c[..|c| - 1];
      var b' := b[..|b| - 1];
      assert c == c' + [c[|c| - 1]];
      if b[|b| - 1] == c[|c| - 1] {
        if a[|a| - 1] == b[|b| - 1] {
          SubseqTrans(a[..|a| - 1], b', c');
        } else {
          SubseqTrans(a, b', c');
          SubseqAppendRight(a, c', c[|c| - 1]);
        }
      } else {
        SubseqTrans(a, b, c');
        SubseqAppendRight(a, c', c[|c| - 1]);
      }
    }
  }

  /** Counters keyed by string, in insertion order (a Python dict of ints). */
  type Counts = seq<(string, int)>

  function Sum(c: Counts): int
  {
    if c == [] then 0 else c[0].1 + Sum(c[1..])
  }

  lemma {:induction false} SumAppend(c: Counts, p: (string, int))
    ensures Sum(c + [p]) == Sum(c) + p.1
    decreases |c|
  {
    if c != [] {
      assert (c + [p])[1..] == c[1..] + [p];
      SumAppend(c[1..], p);
    }
  }

  /** The value stored under k, if any. */
  function Get(c: Counts, k: string): Option<int>
  {
    if c == [] then None else if c[0].0 == k then Some(c[0].1) else Get(c[1..], k)
  }

  /** `d[k] = d.get(k, 0) + 1`: bump an existing counter in place or append a new key. */
  function Bump(c: Counts, k: string): (r: Counts)
    ensures Sum(r) == Sum(c) + 1
  {
    if c == [] then [(k, 1)]
    else if c[0].0 == k then [(k, c[0].1 + 1)] + c[1..]
    else [c[0]] + Bump(c[1..], k)
  }

  /** Bumping one key changes only that key's value. */
  lemma {:induction false} GetBump(c: Counts, k: string, j: string)
    ensures Get(Bump(c, k), j)
      == if j != k then Get(c, j) else if Get(c, k).Some? then Some(Get(c, k).value + 1) else Some(1)
    decreases |c|
  {
    if c == [] {
      assert Bump(c, k) == [(k, 1)];
      assert Bump(c, k)[1..] == [];
    } else if c[0].0 == k {
      GetBumpHead(c, k, j);
    } else {
      GetBump(c[1..], k, j);
      GetBumpTail(c, k, j);
    }
  }

  lemma GetBumpHead(c: Counts, k: string, j: string)
    requires c != [] && c[0].0 == k
    ensures Get(Bump(c, k), j)
      == if j != k then Get(c, j) else if Get(c, k).Some? then Some(Get(c, k).value + 1) else Some(1)
  {
    var r := Bump(c, k);
    assert r == [(k, c[0].1 + 1)] + c[1..];
    assert r[0].0 == k && r[1..] == c[1..];
  }

  lemma GetBumpTail(c: Counts, k: string, j: string)
    requires c != [] && c[0].0 != k
    requires Get(Bump(c[1..], k), j)
      == if j != k then Get(c[1..], j) else if Get(c[1..], k).Some? then Some(Get(c[1..], k).value + 1) else Some(1)
    ensures Get(Bump(c, k), j)
      == if j != k then Get(c, j) else if Get(c, k).Some? then Some(Get(c, k).value + 1) else Some(1)
  {
    var r := Bump(c, k);
    assert r == [c[0]] + Bump(c[1..], k);
    assert r[0] == c[0] && r[1..] == Bump(c[1..], k);
    assert Get(c, k) == Get(c[1..], k);
    if c[0].0 != j {
      assert Get(r, j) == Get(Bump(c[1..], k), j);
      assert Get(c, j) == Get(c[1..], j);
    } else {
      assert Get(r, j) == Some(c[0].1);
      assert Get(c, j) == Some(c[0].1);
    }
  }
}
