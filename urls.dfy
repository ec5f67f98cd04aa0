/** The parts of `urllib.parse` the core uses: `urlparse` (scheme, netloc,
    path, query, fragment), `urlunparse`, `parse_qs` and `urlencode(doseq=True)`.
    Percent-encoding is not modelled: keys and values are taken as written.
    Path parameters (`;params`) stay part of the path. */
module Urls {
  import opened Base
  import opened Text

  datatype UrlParts = UrlParts(scheme: string, netloc: string, path: string, query: string, fragment: string)

  predicate IsSchemeChar(c: char) { IsAlpha(c) || IsDigit(c) || c == '+' || c == '-' || c == '.' }

  /** Length of the longest prefix of s made of scheme characters. */
  function SchemeLen(s: string): (k: nat)
    ensures k <= |s|
    ensures forall i :: 0 <= i < k ==> IsSchemeChar(s[i])
    ensures k < |s| ==> !IsSchemeChar(s[k])
  {
    if |s| == 0 || !IsSchemeChar(s[0]) then 0 else 1 + SchemeLen(s[1..])
  }

  /** `scheme:` is split off when the text before the first ':' is a non-empty run of
      scheme characters starting with a letter (':' is not a scheme character, so the
      first ':' is the one that ends the run). */
  predicate HasScheme(s: string)
  {
    var m := SchemeLen(s);
    0 < m < |s| && s[m] == ':' && IsAlpha(s[0])
  }

  function SplitScheme(s: string): (string, string)
  {
    if HasScheme(s) then (Lower(s[..SchemeLen(s)]), s[SchemeLen(s) + 1..]) else ("", s)
  }

  const NetlocEnd: set<char> := {'/', '?', '#'}

  function SplitNetloc(s: string): (string, string)
  {
    if StartsWith(s, "//") then
      var j := IndexOfAny(s[2..], NetlocEnd);
      (s[2..2 + j], s[2 + j..])
    else ("", s)
  }

  /** Split at the first occurrence of c; the second part is empty when c does not occur. */
  function SplitAt(s: string, c: char): (string, string)
  {
    var k := IndexOfAny(s, {c});
    if k < |s| then (s[..k], s[k + 1..]) else (s, "")
  }

  /** `urlparse` raises ValueError for a netloc with one square bracket but not the other. */
  predicate BadBrackets(netloc: string)
  {
    Contains(netloc, '[') != Contains(netloc, ']')
  }

  /** `urlparse(s)`; None stands for the ValueError it raises. */
  function UrlParse(s: string): Option<UrlParts>
  {
    var (scheme, rest) := SplitScheme(s);
    var (netloc, rest2) := SplitNetloc(rest);
    var (before, fragment) := SplitAt(rest2, '#');
    var (path, query) := SplitAt(before, '?');
    if BadBrackets(netloc) then None else Some(UrlParts(scheme, netloc, path, query, fragment))
  }

  /** `urlunparse(parts)` */
  function UrlUnparse(p: UrlParts): string
  {
    (if p.scheme != "" then p.scheme + ":" else "")
    + (if p.netloc != "" then "//" + p.netloc else "")
    + p.path
    + (if p.query != "" then "?" + p.query else "")
    + (if p.fragment != "" then "#" + p.fragment else "")
  }

  // ---- Replacing the query of a parsed URL ----

  predicate NoChar(s: string, c: char) { forall i :: 0 <= i < |s| ==> s[i] != c }

  /** The text after the path: empty, or starting with '?' or '#'. */
  predicate IsTail(t: string) { t == [] || t[0] == '?' || t[0] == '#' }

  function Tail(query: string, fragment: string): string
  {
    (if query != "" then "?" + query else "") + (if fragment != "" then "#" + fragment else "")
  }

  function Head(p: UrlParts): string
  {
    (if p.scheme != "" then p.scheme + ":" else "") + (if p.netloc != "" then "//" + p.netloc else "") + p.path
  }

  /** Neither '?' nor '#' occurs in s. */
  predicate Clean(s: string) { NoChar(s, '?') && NoChar(s, '#') }

  lemma {:induction false} CleanConcat(a: string, b: string)
    requires Clean(a) && Clean(b)
    ensures Clean(a + b)
  {
    assert forall i :: |a| <= i < |a + b| ==> (a + b)[i] == b[i - |a|];
  }

  lemma {:induction false} IndexOfAnySkip(a: string, b: string, cs: set<char>)
    requires forall i :: 0 <= i < |a| ==> a[i] !in cs
    ensures IndexOfAny(a + b, cs) == |a| + IndexOfAny(b, cs)
    decreases |a|
  {
    if a == [] {
      assert a + b == b;
    } else {
      assert (a + b)[0] == a[0];
      assert (a + b)[1..] == a[1..] + b;
      IndexOfAnySkip(a[1..], b, cs);
    }
  }

  lemma {:induction false} IndexOfAnyEarly(a: string, b: string, cs: set<char>)
    requires IndexOfAny(a, cs) < |a|
    ensures IndexOfAny(a + b, cs) == IndexOfAny(a, cs)
    decreases |a|
  {
    assert (a + b)[0] == a[0];
    if a[0] !in cs {
      assert (a + b)[1..] == a[1..] + b;
      IndexOfAnyEarly(a[1..], b, cs);
    }
  }

  lemma {:induction false} SchemeLenEarly(a: string, b: string)
    requires SchemeLen(a) < |a|
    ensures SchemeLen(a + b) == SchemeLen(a)
    decreases |a|
  {
    assert (a + b)[0] == a[0];
    if IsSchemeChar(a[0]) {
      assert (a + b)[1..] == a[1..] + b;
      SchemeLenEarly(a[1..], b);
    }
  }

  lemma {:induction false} SchemeLenStop(a: string, b: string)
    requires SchemeLen(a) == |a|
    requires b == [] || !IsSchemeChar(b[0])
    ensures SchemeLen(a + b) == |a|
    decreases |a|
  {
    if a == [] {
      assert a + b == b;
    } else {
      assert (a + b)[0] == a[0];
      assert (a + b)[1..] == a[1..] + b;
      SchemeLenStop(a[1..], b);
    }
  }

  /** What the head of a URL (everything before '?' or '#') contributes to the parse. */
  function HeadParts(a: string): (string, string, string)
  {
    var (scheme, rest) := SplitScheme(a);
    var (netloc, path) := SplitNetloc(rest);
    (scheme, netloc, path)
  }

  /** What the tail of a URL contributes: its query and its fragment. */
  function TailParts(t: string): (string, string)
  {
    var (before, fragment) := SplitAt(t, '#');
    var (_, query) := SplitAt(before, '?');
    (query, fragment)
  }

  lemma {:induction false} SchemeOfHead(a: string, t: string)
    requires Clean(a) && IsTail(t)
    ensures SplitScheme(a + t) == (SplitScheme(a).0, SplitScheme(a).1 + t)
    ensures Clean(SplitScheme(a).1)
  {
    var s := a + t;
    var ma := SchemeLen(a);
    if ma < |a| {
      SchemeLenEarly(a, t);
      assert s[..ma] == a[..ma];
      assert s[ma] == a[ma];
      if HasScheme(a) {
        assert s[ma + 1..] == a[ma + 1..] + t;
      }
    } else {
      SchemeLenStop(a, t);
      assert t != [] ==> s[|a|] == t[0];
    }
    var rest := SplitScheme(a).1;
    assert rest == a[|a| - |rest|..];
  }

  lemma NetlocOfHead(rest: string, t: string)
    requires Clean(rest) && IsTail(t)
    ensures SplitNetloc(rest + t) == (SplitNetloc(rest).0, SplitNetloc(rest).1 + t)
    ensures Clean(SplitNetloc(rest).1)
  {
    if StartsWith(rest, "//") {
      NetlocOfSlashes(rest, t);
    } else {
      NetlocOfPlain(rest, t);
    }
  }

  /** The netloc ends inside the head, at its first '/', or where the tail begins. */
  lemma NetlocEndOf(body: string, t: string)
    requires Clean(body) && IsTail(t)
    ensures IndexOfAny(body + t, NetlocEnd) == IndexOfAny(body, NetlocEnd)
  {
    if IndexOfAny(body, NetlocEnd) < |body| {
      IndexOfAnyEarly(body, t, NetlocEnd);
    } else {
      IndexOfAnySkip(body, t, NetlocEnd);
      assert IndexOfAny(t, NetlocEnd) == 0;
    }
  }

  lemma {:induction false} NetlocOfSlashes(rest: string, t: string)
    requires Clean(rest) && IsTail(t) && StartsWith(rest, "//")
    ensures SplitNetloc(rest + t) == (SplitNetloc(rest).0, SplitNetloc(rest).1 + t)
    ensures Clean(SplitNetloc(rest).1)
  {
    var r := rest + t;
    assert r[..2] == rest[..2];
    var body := rest[2..];
    assert r[2..] == body + t;
    NetlocEndOf(body, t);
    var j := IndexOfAny(body, NetlocEnd);
    assert r[2..2 + j] == body[..j] == rest[2..2 + j];
    assert r[2 + j..] == body[j..] + t;
    assert body[j..] == rest[2 + j..];
  }

  lemma {:induction false} NetlocOfPlain(rest: string, t: string)
    requires IsTail(t) && !StartsWith(rest, "//")
    ensures SplitNetloc(rest + t) == ("", rest + t)
  {
    var r := rest + t;
    if |rest| >= 2 {
      assert r[..2] == rest[..2];
    } else if |rest| == 1 {
      if t != [] { assert r[1] == t[0]; }
    } else if t != [] {
      assert r[0] == t[0];
    }
  }

  lemma {:induction false} FragmentOfTail(path: string, t: string)
    requires Clean(path) && IsTail(t)
    ensures SplitAt(path + t, '#') == (path + SplitAt(t, '#').0, SplitAt(t, '#').1)
  {
    IndexOfAnySkip(path, t, {'#'});
    var f := IndexOfAny(t, {'#'});
    if f < |t| {
      assert (path + t)[..|path| + f] == path + t[..f];
      assert (path + t)[|path| + f + 1..] == t[f + 1..];
    }
  }

  lemma {:induction false} QueryOfTail(path: string, t: string)
    requires Clean(path) && IsTail(t)
    ensures SplitAt(path + SplitAt(t, '#').0, '?') == (path, TailParts(t).0)
  {
    var before := SplitAt(t, '#').0;
    IndexOfAnySkip(path, before, {'?'});
    var q := IndexOfAny(before, {'?'});
    if before != [] {
      assert before[0] == t[0];
    }
    assert q == 0 || before == [];
    if before == [] {
      assert path + before == path;
    }
    assert (path + before)[..|path| + q] == path;
    if q < |before| {
      assert (path + before)[|path| + q + 1..] == before[q + 1..];
    }
  }

  function Assemble(head: (string, string, string), tail: (string, string)): Option<UrlParts>
  {
    if BadBrackets(head.1) then None else Some(UrlParts(head.0, head.1, head.2, tail.0, tail.1))
  }

  /** A URL splits into a head without '?' or '#' and a tail; the two parse independently. */
  lemma {:induction false} ParseSplits(a: string, t: string)
    requires Clean(a) && IsTail(t)
    ensures UrlParse(a + t) == Assemble(HeadParts(a), TailParts(t))
  {
    SchemeOfHead(a, t);
    var rest := SplitScheme(a).1;
    NetlocOfHead(rest, t);
    FragmentOfTail(SplitNetloc(rest).1, t);
    QueryOfTail(SplitNetloc(rest).1, t);
  }

  lemma {:induction false} SplitHash(head: string, fragment: string)
    requires NoChar(head, '#')
    ensures SplitAt(head + (if fragment != "" then "#" + fragment else ""), '#') == (head, fragment)
  {
    if fragment == "" {
      assert head + "" == head;
      IndexOfAnyConcat(head, "", {'#'});
    } else {
      var t := head + ("#" + fragment);
      IndexOfAnyConcat(head, "#" + fragment, {'#'});
      assert t[..|head|] == head;
      assert t[|head| + 1..] == fragment;
    }
  }

  lemma {:induction false} SplitQuestion(q: string)
    ensures SplitAt("?" + q, '?') == ("", q)
  {
    assert IndexOfAny("?" + q, {'?'}) == 0;
    assert ("?" + q)[1..] == q;
  }

  /** The tail printed for a non-empty query without '#' parses back to that query. */
  lemma {:induction false} TailRoundTrip(q: string, fragment: string)
    requires NoChar(q, '#') && q != ""
    ensures IsTail(Tail(q, fragment))
    ensures TailParts(Tail(q, fragment)) == (q, fragment)
  {
    var head := "?" + q;
    assert NoChar(head, '#') by {
      assert forall i :: 1 <= i < |head| ==> head[i] == q[i - 1];
    }
    SplitHash(head, fragment);
    SplitQuestion(q);
    assert Tail(q, fragment) == head + (if fragment != "" then "#" + fragment else "");
  }

  /** The parts of a successful parse, spelled out. */
  lemma UrlParseParts(u: string, p: UrlParts)
    requires UrlParse(u) == Some(p)
    ensures var rest2 := SplitNetloc(SplitScheme(u).1).1;
      var before := SplitAt(rest2, '#').0;
      p.scheme == SplitScheme(u).0 && p.netloc == SplitNetloc(SplitScheme(u).1).0
      && p.path == SplitAt(before, '?').0 && p.query == SplitAt(before, '?').1
      && p.fragment == SplitAt(rest2, '#').1
  {
  }

  /** The part before the first c holds no c, and no character s does not hold. */
  lemma SplitAtHead(s: string, c: char, d: char)
    ensures NoChar(SplitAt(s, c).0, c)
    ensures NoChar(s, d) ==> NoChar(SplitAt(s, c).0, d)
  {
    var k := IndexOfAny(s, {c});
    if k < |s| {
      assert forall i :: 0 <= i < k ==> SplitAt(s, c).0[i] == s[i];
    }
  }

  lemma SchemeClean(u: string)
    ensures Clean(SplitScheme(u).0)
  {
    if HasScheme(u) {
      var sc := SplitScheme(u).0;
      forall i | 0 <= i < |sc| ensures sc[i] != '?' && sc[i] != '#' {
        assert IsSchemeChar(u[i]);
      }
    }
  }

  lemma NetlocClean(s: string)
    ensures Clean(SplitNetloc(s).0)
  {
    if StartsWith(s, "//") {
      var j := IndexOfAny(s[2..], NetlocEnd);
      assert forall i :: 0 <= i < j ==> SplitNetloc(s).0[i] == s[2..][i];
    }
  }

  /** The scheme, netloc and path of a successful parse are free of '?' and '#'. */
  lemma HeadIsClean(u: string, p: UrlParts)
    requires UrlParse(u) == Some(p)
    ensures Clean(Head(p))
  {
    PartsClean(u, p);
    HeadOfClean(p);
  }

  lemma {:induction false} PartsClean(u: string, p: UrlParts)
    requires UrlParse(u) == Some(p)
    ensures Clean(p.scheme) && Clean(p.netloc) && Clean(p.path)
  {
    UrlParseParts(u, p);
    var rest2 := SplitNetloc(SplitScheme(u).1).1;
    var before := SplitAt(rest2, '#').0;
    SchemeClean(u);
    NetlocClean(SplitScheme(u).1);
    SplitAtHead(rest2, '#', '#');
    SplitAtHead(before, '?', '#');
  }

  lemma {:induction false} HeadOfClean(p: UrlParts)
    requires Clean(p.scheme) && Clean(p.netloc) && Clean(p.path)
    ensures Clean(Head(p))
  {
    var s1 := if p.scheme != "" then p.scheme + ":" else "";
    var s2 := if p.netloc != "" then "//" + p.netloc else "";
    if p.scheme != "" { CleanConcat(p.scheme, ":"); }
    if p.netloc != "" { CleanConcat("//", p.netloc); }
    CleanConcat(s1, s2);
    CleanConcat(s1 + s2, p.path);
  }

  /** A printed URL is its head followed by its tail. */
  lemma PrintedSplits(p: UrlParts)
    ensures UrlUnparse(p) == Head(p) + Tail(p.query, p.fragment)
    ensures IsTail(Tail(p.query, p.fragment))
  {
  }

  /** Parsing a printed URL recovers its head parts. */
  lemma {:induction false} HeadOfPrinted(u: string, p: UrlParts)
    requires UrlParse(u) == Some(p) && UrlUnparse(p) == u
    ensures HeadParts(Head(p)) == (p.scheme, p.netloc, p.path) && !BadBrackets(p.netloc)
  {
    HeadIsClean(u, p);
    PrintedSplits(p);
    ParseSplits(Head(p), Tail(p.query, p.fragment));
  }

  /** Replacing the query of parts whose head parses back to them yields a URL that
      parses to the same parts with the new query. */
  lemma {:induction false} ReplaceQueryParts(p: UrlParts, q: string)
    requires Clean(Head(p)) && HeadParts(Head(p)) == (p.scheme, p.netloc, p.path) && !BadBrackets(p.netloc)
    requires NoChar(q, '#') && q != ""
    ensures UrlParse(UrlUnparse(p.(query := q))) == Some(p.(query := q))
  {
    TailRoundTrip(q, p.fragment);
    PrintedSplits(p.(query := q));
    assert Head(p.(query := q)) == Head(p);
    ParseSplits(Head(p), Tail(q, p.fragment));
  }

  /** Replacing the query of a URL that prints as it parses yields a URL that parses
      to the same parts with the new query. */
  lemma {:induction false} ReplaceQuery(u: string, p: UrlParts, q: string)
    requires UrlParse(u) == Some(p) && UrlUnparse(p) == u
    requires NoChar(q, '#') && q != ""
    ensures UrlParse(UrlUnparse(p.(query := q))) == Some(p.(query := q))
  {
    HeadIsClean(u, p);
    HeadOfPrinted(u, p);
    ReplaceQueryParts(p, q);
  }

  // ---- Query strings ----

  /** An insertion-ordered dict from keys to lists of values, as `parse_qs` builds it. */
  type QueryDict = seq<(string, seq<string>)>

  function QKeys(d: QueryDict): (ks: seq<string>)
    ensures |ks| == |d| && forall i :: 0 <= i < |d| ==> ks[i] == d[i].0
  {
    if d == [] then [] else [d[0].0] + QKeys(d[1..])
  }

  /** `s.split(c)`: the pieces between occurrences of c (always at least one piece). */
  function SplitAll(s: string, c: char): (ps: seq<string>)
    ensures |ps| >= 1
    ensures forall i :: 0 <= i < |ps| ==> NoChar(ps[i], c)
    decreases |s|
  {
    var k := IndexOfAny(s, {c});
    if k < |s| then [s[..k]] + SplitAll(s[k + 1..], c) else [s]
  }

  /** `parse_qsl(q)`: pieces without '=' and pieces with an empty value are dropped. */
  function ParseQsl(pieces: seq<string>): seq<(string, string)>
  {
    if pieces == [] then []
    else
      var piece := pieces[0];
      var k := IndexOfAny(piece, {'='});
      if piece == "" || k == |piece| || k + 1 == |piece| then ParseQsl(pieces[1..])
      else [(piece[..k], piece[k + 1..])] + ParseQsl(pieces[1..])
  }

  /** Append v to the list under k, creating the key at the end when it is new. */
  function AddValue(d: QueryDict, k: string, v: string): QueryDict
  {
    if d == [] then [(k, [v])]
    else if d[0].0 == k then [(k, d[0].1 + [v])] + d[1..]
    else [d[0]] + AddValue(d[1..], k, v)
  }

  function Group(pairs: seq<(string, string)>, acc: QueryDict): QueryDict
  {
    if pairs == [] then acc else Group(pairs[1..], AddValue(acc, pairs[0].0, pairs[0].1))
  }

  /** `parse_qs(q)` */
  function ParseQs(q: string): QueryDict
  {
    Group(ParseQsl(SplitAll(q, '&')), [])
  }

  function EncodePairs(k: string, vs: seq<string>): seq<string>
  {
    if vs == [] then [] else [k + "=" + vs[0]] + EncodePairs(k, vs[1..])
  }

  function EncodeItems(d: QueryDict): seq<string>
  {
    if d == [] then [] else EncodePairs(d[0].0, d[0].1) + EncodeItems(d[1..])
  }

  /** `urlencode(d, doseq=True)` */
  function Urlencode(d: QueryDict): string
  {
    Join(EncodeItems(d), "&")
  }

  /** `d[k] = vs`: replace the list in place, or append the key at the end. */
  function SetKey(d: QueryDict, k: string, vs: seq<string>): (r: QueryDict)
    ensures k !in QKeys(d) ==> r == d + [(k, vs)]
  {
    if d == [] then [(k, vs)]
    else if d[0].0 == k then [(k, vs)] + d[1..]
    else [d[0]] + SetKey(d[1..], k, vs)
  }

  /** `d.pop(k, default)`: the list under k (or the default) and the dict without k. */
  function PopKey(d: QueryDict, k: string, default: seq<string>): (seq<string>, QueryDict)
  {
    if d == [] then (default, [])
    else if d[0].0 == k then (d[0].1, d[1..])
    else var (v, rest) := PopKey(d[1..], k, default); (v, [d[0]] + rest)
  }

  // ---- Round trip of query strings ----

  predicate KeyOk(k: string) { NoChar(k, '&') && NoChar(k, '=') }
  predicate ValueOk(v: string) { v != "" && NoChar(v, '&') }

  /** What `parse_qs` can produce: distinct keys without '&' or '=', non-empty lists of
      non-empty values without '&'. */
  predicate WellFormed(d: QueryDict)
  {
    (forall i :: 0 <= i < |d| ==> KeyOk(d[i].0) && d[i].1 != [])
    && (forall i, j :: 0 <= i < |d| && 0 <= j < |d[i].1| ==> ValueOk(d[i].1[j]))
    && (forall i, j :: 0 <= i < j < |d| ==> d[i].0 != d[j].0)
  }

  /** The (key, value) pairs of a dict in encoding order. */
  function KPairs(k: string, vs: seq<string>): seq<(string, string)>
  {
    if vs == [] then [] else [(k, vs[0])] + KPairs(k, vs[1..])
  }

  function Pairs(d: QueryDict): seq<(string, string)>
  {
    if d == [] then [] else KPairs(d[0].0, d[0].1) + Pairs(d[1..])
  }

  lemma {:induction false} SplitJoin(items: seq<string>)
    requires |items| >= 1 && forall i :: 0 <= i < |items| ==> NoChar(items[i], '&')
    ensures SplitAll(Join(items, "&"), '&') == items
    decreases |items|
  {
    if |items| == 1 {
      assert IndexOfAny(items[0], {'&'}) == |items[0]|;
    } else {
      var rest := Join(items[1..], "&");
      assert Join(items, "&") == items[0] + ("&" + rest);
      IndexOfAnyConcat(items[0], "&" + rest, {'&'});
      var s := items[0] + ("&" + rest);
      assert s[..|items[0]|] == items[0];
      assert s[|items[0]| + 1..] == rest;
      SplitJoin(items[1..]);
    }
  }

  lemma {:induction false} ParseQslAppend(a: seq<string>, b: seq<string>)
    ensures ParseQsl(a + b) == ParseQsl(a) + ParseQsl(b)
    decreases |a|
  {
    if a == [] {
      assert a + b == b;
    } else {
      assert (a + b)[0] == a[0];
      assert (a + b)[1..] == a[1..] + b;
      ParseQslAppend(a[1..], b);
    }
  }

  /** One encoded `k=v` piece parses back to (k, v). */
  lemma PieceRoundTrip(k: string, v: string)
    requires KeyOk(k) && ValueOk(v)
    ensures ParseQsl([k + "=" + v]) == [(k, v)]
  {
    var piece := k + "=" + v;
    IndexOfAnyConcat(k, "=" + v, {'='});
    assert piece == k + ("=" + v);
    assert piece[..|k|] == k;
    assert piece[|k| + 1..] == v;
    var ps: seq<string> := [piece];
    assert ps[1..] == [];
  }

  lemma {:induction false} ParseQslPairs(k: string, vs: seq<string>)
    requires KeyOk(k) && forall j :: 0 <= j < |vs| ==> ValueOk(vs[j])
    ensures ParseQsl(EncodePairs(k, vs)) == KPairs(k, vs)
    decreases |vs|
  {
    if vs != [] {
      PieceRoundTrip(k, vs[0]);
      ParseQslAppend([k + "=" + vs[0]], EncodePairs(k, vs[1..]));
      ParseQslPairs(k, vs[1..]);
    }
  }

  lemma {:induction false} ParseQslItems(d: QueryDict)
    requires WellFormed(d)
    ensures ParseQsl(EncodeItems(d)) == Pairs(d)
    decreases |d|
  {
    if d != [] {
      assert forall j :: 0 <= j < |d[0].1| ==> ValueOk(d[0].1[j]);
      ParseQslPairs(d[0].0, d[0].1);
      ParseQslAppend(EncodePairs(d[0].0, d[0].1), EncodeItems(d[1..]));
      assert WellFormed(d[1..]) by {
        assert forall i :: 0 <= i < |d[1..]| ==> d[1..][i] == d[i + 1];
      }
      ParseQslItems(d[1..]);
    }
  }

  lemma {:induction false} EncodePairsShape(k: string, vs: seq<string>)
    requires KeyOk(k) && forall j :: 0 <= j < |vs| ==> ValueOk(vs[j])
    ensures |EncodePairs(k, vs)| == |vs|
    ensures forall i :: 0 <= i < |vs| ==> NoChar(EncodePairs(k, vs)[i], '&')
    decreases |vs|
  {
    if vs != [] {
      EncodePairsShape(k, vs[1..]);
      var piece := k + "=" + vs[0];
      assert NoChar(piece, '&') by {
        assert forall i :: 0 <= i < |k| ==> piece[i] == k[i];
        assert forall i :: |k| < i < |piece| ==> piece[i] == vs[0][i - |k| - 1];
      }
    }
  }

  lemma {:induction false} EncodeItemsShape(d: QueryDict)
    requires WellFormed(d)
    ensures d == [] <==> EncodeItems(d) == []
    ensures forall i :: 0 <= i < |EncodeItems(d)| ==> NoChar(EncodeItems(d)[i], '&')
    decreases |d|
  {
    if d != [] {
      assert forall j :: 0 <= j < |d[0].1| ==> ValueOk(d[0].1[j]);
      EncodePairsShape(d[0].0, d[0].1);
      assert WellFormed(d[1..]) by {
        assert forall i :: 0 <= i < |d[1..]| ==> d[1..][i] == d[i + 1];
      }
      EncodeItemsShape(d[1..]);
      var a := EncodePairs(d[0].0, d[0].1);
      var b := EncodeItems(d[1..]);
      assert forall i :: |a| <= i < |a + b| ==> (a + b)[i] == b[i - |a|];
    }
  }

  lemma {:induction false} GroupAppend(a: seq<(string, string)>, b: seq<(string, string)>, acc: QueryDict)
    ensures Group(a + b, acc) == Group(b, Group(a, acc))
    decreases |a|
  {
    if a == [] {
      assert a + b == b;
    } else {
      assert (a + b)[0] == a[0];
      assert (a + b)[1..] == a[1..] + b;
      GroupAppend(a[1..], b, AddValue(acc, a[0].0, a[0].1));
    }
  }

  lemma {:induction false} AddValueNew(acc: QueryDict, k: string, v: string)
    requires k !in QKeys(acc)
    ensures AddValue(acc, k, v) == acc + [(k, [v])]
    decreases |acc|
  {
    if acc != [] {
      assert QKeys(acc[1..]) == QKeys(acc)[1..];
      AddValueNew(acc[1..], k, v);
      assert acc == [acc[0]] + acc[1..];
    }
  }

  lemma {:induction false} AddValueLast(acc: QueryDict, k: string, vs: seq<string>, v: string)
    requires k !in QKeys(acc)
    ensures AddValue(acc + [(k, vs)], k, v) == acc + [(k, vs + [v])]
    decreases |acc|
  {
    if acc == [] {
      assert acc + [(k, vs)] == [(k, vs)];
    } else {
      assert QKeys(acc[1..]) == QKeys(acc)[1..];
      assert (acc + [(k, vs)])[1..] == acc[1..] + [(k, vs)];
      AddValueLast(acc[1..], k, vs, v);
    }
  }

  lemma {:induction false} GroupKPairs(acc: QueryDict, k: string, pre: seq<string>, vs: seq<string>)
    requires k !in QKeys(acc)
    ensures Group(KPairs(k, vs), acc + [(k, pre)]) == acc + [(k, pre + vs)]
    decreases |vs|
  {
    if vs == [] {
      assert pre + vs == pre;
    } else {
      AddValueLast(acc, k, pre, vs[0]);
      GroupKPairs(acc, k, pre + [vs[0]], vs[1..]);
      assert pre + [vs[0]] + vs[1..] == pre + vs;
    }
  }

  lemma {:induction false} GroupPairs(d: QueryDict, acc: QueryDict)
    requires WellFormed(d)
    requires forall i :: 0 <= i < |d| ==> d[i].0 !in QKeys(acc)
    ensures Group(Pairs(d), acc) == acc + d
    decreases |d|
  {
    if d == [] {
      assert acc + d == acc;
    } else {
      var k := d[0].0;
      var vs := d[0].1;
      GroupAppend(KPairs(k, vs), Pairs(d[1..]), acc);
      AddValueNew(acc, k, vs[0]);
      GroupKPairs(acc, k, [vs[0]], vs[1..]);
      assert [vs[0]] + vs[1..] == vs;
      var acc' := acc + [(k, vs)];
      assert WellFormed(d[1..]) by {
        assert forall i :: 0 <= i < |d[1..]| ==> d[1..][i] == d[i + 1];
      }
      assert QKeys(acc') == QKeys(acc) + [k];
      forall i | 0 <= i < |d[1..]| ensures d[1..][i].0 !in QKeys(acc') {
        assert d[1..][i] == d[i + 1];
        assert d[0].0 != d[i + 1].0;
      }
      GroupPairs(d[1..], acc');
      assert acc' + d[1..] == acc + d;
    }
  }

  /** `parse_qs(urlencode(d, doseq=True)) == d` for every dict `parse_qs` can produce. */
  lemma QueryRoundTrip(d: QueryDict)
    requires WellFormed(d)
    ensures ParseQs(Urlencode(d)) == d
  {
    EncodeItemsShape(d);
    if d == [] {
      assert SplitAll("", '&') == [""];
      assert ParseQsl([""]) == [];
    } else {
      SplitJoin(EncodeItems(d));
      ParseQslItems(d);
      GroupPairs(d, []);
    }
  }

  // ---- parse_qs only produces well-formed dicts ----

  predicate PairOk(p: (string, string)) { KeyOk(p.0) && ValueOk(p.1) }

  lemma {:induction false} ParseQslOk(pieces: seq<string>)
    requires forall i :: 0 <= i < |pieces| ==> NoChar(pieces[i], '&')
    ensures forall i :: 0 <= i < |ParseQsl(pieces)| ==> PairOk(ParseQsl(pieces)[i])
    decreases |pieces|
  {
    if pieces != [] {
      ParseQslOk(pieces[1..]);
      var piece := pieces[0];
      var k := IndexOfAny(piece, {'='});
      if !(piece == "" || k == |piece| || k + 1 == |piece|) {
        var p := (piece[..k], piece[k + 1..]);
        assert PairOk(p);
      }
    }
  }

  lemma {:induction false} AddValueKeys(acc: QueryDict, k: string, v: string)
    ensures QKeys(AddValue(acc, k, v)) == if k in QKeys(acc) then QKeys(acc) else QKeys(acc) + [k]
    decreases |acc|
  {
    if acc != [] {
      assert QKeys(acc) == [acc[0].0] + QKeys(acc[1..]);
      if acc[0].0 != k {
        AddValueKeys(acc[1..], k, v);
        assert QKeys(AddValue(acc, k, v)) == [acc[0].0] + QKeys(AddValue(acc[1..], k, v));
      }
    }
  }

  predicate DistinctKeys(d: QueryDict) { forall i, j :: 0 <= i < j < |d| ==> d[i].0 != d[j].0 }

  lemma {:induction false} DistinctCons(p: (string, seq<string>), t: QueryDict)
    requires DistinctKeys(t) && p.0 !in QKeys(t)
    ensures DistinctKeys([p] + t)
  {
    var r := [p] + t;
    forall i, j | 0 <= i < j < |r| ensures r[i].0 != r[j].0 {
      assert r[j] == t[j - 1];
      if i > 0 { assert r[i] == t[i - 1]; }
      else { assert QKeys(t)[j - 1] == t[j - 1].0; }
    }
  }

  lemma {:induction false} AddValueDistinct(acc: QueryDict, k: string, v: string)
    requires DistinctKeys(acc)
    ensures DistinctKeys(AddValue(acc, k, v))
    decreases |acc|
  {
    if acc != [] {
      var t := acc[1..];
      assert DistinctKeys(t) by {
        assert forall i :: 0 <= i < |t| ==> t[i] == acc[i + 1];
      }
      assert acc[0].0 !in QKeys(t) by {
        assert forall m :: 0 <= m < |t| ==> QKeys(t)[m] == acc[m + 1].0;
      }
      if acc[0].0 == k {
        DistinctCons((k, acc[0].1 + [v]), t);
      } else {
        AddValueDistinct(t, k, v);
        AddValueKeys(t, k, v);
        DistinctCons(acc[0], AddValue(t, k, v));
      }
    }
  }

  lemma {:induction false} AddValueEntries(acc: QueryDict, k: string, v: string)
    requires WellFormed(acc) && KeyOk(k) && ValueOk(v)
    ensures forall i :: 0 <= i < |AddValue(acc, k, v)| ==> KeyOk(AddValue(acc, k, v)[i].0) && AddValue(acc, k, v)[i].1 != []
    ensures forall i, j :: 0 <= i < |AddValue(acc, k, v)| && 0 <= j < |AddValue(acc, k, v)[i].1| ==> ValueOk(AddValue(acc, k, v)[i].1[j])
    decreases |acc|
  {
    if acc != [] {
      var t := acc[1..];
      assert WellFormed(t) by {
        assert forall i :: 0 <= i < |t| ==> t[i] == acc[i + 1];
      }
      var r := AddValue(acc, k, v);
      if acc[0].0 == k {
        assert forall i :: 1 <= i < |r| ==> r[i] == acc[i];
        assert forall j :: 0 <= j < |r[0].1| ==> r[0].1[j] == v || r[0].1[j] == acc[0].1[j];
      } else {
        AddValueEntries(t, k, v);
        assert forall i :: 1 <= i < |r| ==> r[i] == AddValue(t, k, v)[i - 1];
      }
    }
  }

  lemma AddValueOk(acc: QueryDict, k: string, v: string)
    requires WellFormed(acc) && KeyOk(k) && ValueOk(v)
    ensures WellFormed(AddValue(acc, k, v))
  {
    AddValueDistinct(acc, k, v);
    AddValueEntries(acc, k, v);
  }

  lemma {:induction false} GroupOk(pairs: seq<(string, string)>, acc: QueryDict)
    requires WellFormed(acc) && forall i :: 0 <= i < |pairs| ==> PairOk(pairs[i])
    ensures WellFormed(Group(pairs, acc))
    decreases |pairs|
  {
    if pairs != [] {
      AddValueOk(acc, pairs[0].0, pairs[0].1);
      GroupOk(pairs[1..], AddValue(acc, pairs[0].0, pairs[0].1));
    }
  }

  /** Whatever the query string, `parse_qs` yields a well-formed dict. */
  lemma ParseQsWellFormed(q: string)
    ensures WellFormed(ParseQs(q))
  {
    ParseQslOk(SplitAll(q, '&'));
    GroupOk(ParseQsl(SplitAll(q, '&')), []);
  }

  // ---- Appending keys ----

  lemma {:induction false} NoCharConcat(a: string, b: string, c: char)
    requires NoChar(a, c) && NoChar(b, c)
    ensures NoChar(a + b, c)
  {
    assert forall i :: |a| <= i < |a + b| ==> (a + b)[i] == b[i - |a|];
  }

  lemma {:induction false} QKeysAppend(d: QueryDict, e: QueryDict)
    ensures QKeys(d + e) == QKeys(d) + QKeys(e)
  {
    var l := QKeys(d + e);
    assert |l| == |QKeys(d) + QKeys(e)|;
    forall i | 0 <= i < |l| ensures l[i] == (QKeys(d) + QKeys(e))[i] {
      if i < |d| { assert (d + e)[i] == d[i]; } else { assert (d + e)[i] == e[i - |d|]; }
    }
  }

  lemma {:induction false} EncodeItemsAppend(d: QueryDict, e: QueryDict)
    ensures EncodeItems(d + e) == EncodeItems(d) + EncodeItems(e)
    decreases |d|
  {
    if d == [] {
      assert d + e == e;
    } else {
      assert (d + e)[0] == d[0];
      assert (d + e)[1..] == d[1..] + e;
      EncodeItemsAppend(d[1..], e);
    }
  }

  lemma {:induction false} JoinAppend(a: seq<string>, b: seq<string>, sep: string)
    requires a != [] && b != []
    ensures Join(a + b, sep) == Join(a, sep) + sep + Join(b, sep)
    decreases |a|
  {
    if |a| == 1 {
      assert (a + b)[1..] == b;
    } else {
      assert (a + b)[1..] == a[1..] + b;
      JoinAppend(a[1..], b, sep);
    }
  }

  /** Adding one key with one value appends `&k=v` to the encoding. */
  lemma UrlencodeAppend(d: QueryDict, k: string, v: string)
    ensures Urlencode(d + [(k, [v])])
      == if EncodeItems(d) == [] then k + "=" + v else Urlencode(d) + "&" + k + "=" + v
  {
    EncodeItemsAppend(d, [(k, [v])]);
    var one: seq<string> := [v];
    assert one[1..] == [];
    assert EncodePairs(k, one) == [k + "=" + v] + EncodePairs(k, one[1..]);
    var entry: QueryDict := [(k, one)];
    assert entry[1..] == [];
    assert EncodeItems(entry) == EncodePairs(k, one) + EncodeItems(entry[1..]);
    assert EncodeItems([(k, [v])]) == [k + "=" + v];
    if EncodeItems(d) == [] {
      assert EncodeItems(d + [(k, [v])]) == [k + "=" + v];
    } else {
      JoinAppend(EncodeItems(d), [k + "=" + v], "&");
    }
  }

  /** A well-formed dict stays well-formed when a fresh key with good values is appended. */
  lemma WellFormedAppend(d: QueryDict, k: string, vs: seq<string>)
    requires WellFormed(d) && KeyOk(k) && k !in QKeys(d)
    requires vs != [] && forall j :: 0 <= j < |vs| ==> ValueOk(vs[j])
    ensures WellFormed(d + [(k, vs)])
  {
    var r := d + [(k, vs)];
    forall i, j | 0 <= i < j < |r| ensures r[i].0 != r[j].0 {
      if j == |d| { assert QKeys(d)[i] == d[i].0; }
    }
  }

  /** Popping a key that occurs once, right after a prefix without it. */
  lemma {:induction false} PopKeyAfter(d: QueryDict, k: string, vs: seq<string>, rest: QueryDict, default: seq<string>)
    requires k !in QKeys(d)
    ensures PopKey(d + [(k, vs)] + rest, k, default) == (vs, d + rest)
    decreases |d|
  {
    if d == [] {
      assert d + [(k, vs)] + rest == [(k, vs)] + rest;
      assert ([(k, vs)] + rest)[1..] == rest;
      assert d + rest == rest;
    } else {
      assert QKeys(d) == [d[0].0] + QKeys(d[1..]);
      assert (d + [(k, vs)] + rest)[1..] == d[1..] + [(k, vs)] + rest;
      PopKeyAfter(d[1..], k, vs, rest, default);
      assert [d[0]] + (d[1..] + rest) == d + rest;
    }
  }

  /** The query of a successful parse never holds '#'. */
  lemma QueryHasNoHash(u: string, p: UrlParts)
    requires UrlParse(u) == Some(p)
    ensures NoChar(p.query, '#')
  {
    var rest2 := SplitNetloc(SplitScheme(u).1).1;
    var before := SplitAt(rest2, '#').0;
    assert NoChar(before, '#');
    var k := IndexOfAny(before, {'?'});
    if k < |before| {
      assert p.query == before[k + 1..];
    }
  }

  predicate ListsNonEmpty(d: QueryDict) { forall i :: 0 <= i < |d| ==> d[i].1 != [] }

  /** Popping from a dict of non-empty lists, with a non-empty default, yields a
      non-empty list and leaves non-empty lists behind. */
  lemma {:induction false} PopKeyNonEmpty(d: QueryDict, k: string, default: seq<string>)
    requires ListsNonEmpty(d) && default != []
    ensures PopKey(d, k, default).0 != [] && ListsNonEmpty(PopKey(d, k, default).1)
    decreases |d|
  {
    if d != [] && d[0].0 != k {
      PopKeyNonEmpty(d[1..], k, default);
      var rest := PopKey(d[1..], k, default).1;
      assert forall i :: 1 <= i < |[d[0]] + rest| ==> ([d[0]] + rest)[i] == rest[i - 1];
    }
  }
}
