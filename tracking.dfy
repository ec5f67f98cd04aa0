/** Click tracking: `add_tracking_to_url` tags a result URL with the engine's code
    (`_src`) and the search id (`_sid`); `extract_tracking_from_url` takes them off
    again; `generate_search_id` names a search after the UTC clock. */
module Tracking {
  import opened Base
  import opened Text
  import opened Urls
  import opened Dates

  /** `ENGINE_CODES`: ddg -> d, bing -> b, startpage -> s. */
  function EngineCode(engine: string): (c: Option<string>)
    ensures c.Some? <==> engine == "ddg" || engine == "bing" || engine == "startpage"
  {
    if engine == "ddg" then Some("d")
    else if engine == "bing" then Some("b")
    else if engine == "startpage" then Some("s")
    else None
  }

  /** The inverse of `ENGINE_CODES`, with "unknown" for any other code. */
  function EngineOfCode(code: string): string
  {
    if code == "d" then "ddg"
    else if code == "b" then "bing"
    else if code == "s" then "startpage"
    else "unknown"
  }

  /** The table is injective, so the inverse map recovers every engine it names,
      and every other code reads back as "unknown". */
  lemma EngineCodesInvert(engine: string, code: string)
    ensures EngineCode(engine) == Some(code) ==> EngineOfCode(code) == engine
    ensures (forall e :: EngineCode(e) != Some(code)) ==> EngineOfCode(code) == "unknown"
  {
    if EngineOfCode(code) != "unknown" {
      assert EngineCode(EngineOfCode(code)) == Some(code);
    }
  }

  /** `ENGINE_CODES.get(engine, "u")` */
  function SourceCode(engine: string): string
  {
    match EngineCode(engine)
    case Some(c) => c
    case None => "u"
  }

  /** `add_tracking_to_url(url, engine, search_id)`; None stands for the ValueError
      `urlparse` raises, which the function does not catch. */
  function AddTracking(url: string, engine: string, searchId: string): (r: Option<string>)
    ensures r.Some? <==> UrlParse(url).Some?
  {
    match UrlParse(url)
    case None => None
    case Some(p) =>
      var params := SetKey(SetKey(ParseQs(p.query), "_src", [SourceCode(engine)]), "_sid", [searchId]);
      Some(UrlUnparse(p.(query := Urlencode(params))))
  }

  datatype Extracted = Extracted(engine: string, searchId: string, cleanUrl: string)

  /** `extract_tracking_from_url(url)`; None stands for `urlparse`'s ValueError. */
  function ExtractTracking(url: string): (r: Option<Extracted>)
    ensures r.Some? <==> UrlParse(url).Some?
    ensures r.Some? ==> r.value.engine in {"ddg", "bing", "startpage", "unknown"}
  {
    match UrlParse(url)
    case None => None
    case Some(p) =>
      var params := ParseQs(p.query);
      ParseQsWellFormed(p.query);
      PopKeyNonEmpty(params, "_src", ["u"]);
      var (src, params1) := PopKey(params, "_src", ["u"]);
      PopKeyNonEmpty(params1, "_sid", [""]);
      var (sid, params2) := PopKey(params1, "_sid", [""]);
      Some(Extracted(EngineOfCode(src[0]), sid[0], UrlUnparse(p.(query := Urlencode(params2)))))
  }

  /** A URL as `urlunparse`/`urlencode` would print it, without tracking parameters. */
  predicate Untracked(u: string)
  {
    UrlParse(u).Some?
    && UrlUnparse(UrlParse(u).value) == u
    && Urlencode(ParseQs(UrlParse(u).value.query)) == UrlParse(u).value.query
    && "_src" !in QKeys(ParseQs(UrlParse(u).value.query))
    && "_sid" !in QKeys(ParseQs(UrlParse(u).value.query))
  }

  lemma TrackingKeysOk()
    ensures KeyOk("_src") && KeyOk("_sid")
    ensures NoChar("_src", '#') && NoChar("_sid", '#') && NoChar("&", '#') && NoChar("=", '#')
  {
  }

  /** The query the tracker writes: the old one followed by `_src` and `_sid`. */
  lemma TrackedQuery(u: string, p: UrlParts, c: string, sid: string)
    requires Untracked(u) && p == UrlParse(u).value
    requires ValueOk(c) && NoChar(c, '#') && ValueOk(sid) && NoChar(sid, '#')
    ensures var d := ParseQs(p.query);
      var d2 := SetKey(SetKey(d, "_src", [c]), "_sid", [sid]);
      d2 == d + [("_src", [c])] + [("_sid", [sid])]
      && WellFormed(d2)
      && NoChar(Urlencode(d2), '#') && Urlencode(d2) != ""
  {
    ParseQsWellFormed(p.query);
    QueryHasNoHash(u, p);
    TrackedDict(ParseQs(p.query), c, sid);
  }

  /** Setting `_src` and `_sid` on a well-formed query that has neither appends them. */
  lemma TrackedDict(d: QueryDict, c: string, sid: string)
    requires WellFormed(d) && NoChar(Urlencode(d), '#') && "_src" !in QKeys(d) && "_sid" !in QKeys(d)
    requires ValueOk(c) && NoChar(c, '#') && ValueOk(sid) && NoChar(sid, '#')
    ensures var d2 := SetKey(SetKey(d, "_src", [c]), "_sid", [sid]);
      d2 == d + [("_src", [c])] + [("_sid", [sid])]
      && WellFormed(d2)
      && NoChar(Urlencode(d2), '#') && Urlencode(d2) != ""
  {
    TrackingKeysOk();
    SetNewKey(d, "_src", c);
    var d1 := d + [("_src", [c])];
    assert "_sid" !in QKeys(d) + ["_src"];
    SetNewKey(d1, "_sid", sid);
    AppendedNoHash(d, "_src", c);
    AppendedNoHash(d1, "_sid", sid);
  }

  /** Setting a key the query does not have appends it, and the query stays
      well-formed. */
  lemma SetNewKey(d: QueryDict, k: string, v: string)
    requires WellFormed(d) && KeyOk(k) && k !in QKeys(d) && ValueOk(v)
    ensures SetKey(d, k, [v]) == d + [(k, [v])]
    ensures WellFormed(d + [(k, [v])]) && QKeys(d + [(k, [v])]) == QKeys(d) + [k]
  {
    QKeysAppend(d, [(k, [v])]);
    WellFormedAppend(d, k, [v]);
  }

  /** Appending one key with one value to a query without '#' keeps it without '#'
      and makes it non-empty. */
  lemma AppendedNoHash(d: QueryDict, k: string, v: string)
    requires NoChar(Urlencode(d), '#') && NoChar(k, '#') && NoChar(v, '#')
    ensures NoChar(Urlencode(d + [(k, [v])]), '#') && Urlencode(d + [(k, [v])]) != ""
  {
    UrlencodeAppend(d, k, v);
    NoCharConcat(k, "=", '#');
    NoCharConcat(k + "=", v, '#');
    var e := Urlencode(d);
    NoCharConcat(e, "&", '#');
    NoCharConcat(e + "&", k, '#');
    NoCharConcat(e + "&" + k, "=", '#');
    NoCharConcat(e + "&" + k + "=", v, '#');
  }

  /** What the tracker returns for an untracked URL. */
  lemma AddTrackingIs(u: string, engine: string, sid: string)
    requires Untracked(u)
    requires ValueOk(sid) && NoChar(sid, '#')
    ensures var p := UrlParse(u).value;
      var d2 := ParseQs(p.query) + [("_src", [SourceCode(engine)])] + [("_sid", [sid])];
      AddTracking(u, engine, sid) == Some(UrlUnparse(p.(query := Urlencode(d2))))
      && WellFormed(d2) && NoChar(Urlencode(d2), '#') && Urlencode(d2) != ""
  {
    TrackedQuery(u, UrlParse(u).value, SourceCode(engine), sid);
  }

  /** What the extractor returns for a URL whose query ends in `_src` and `_sid`. */
  lemma ExtractIs(url: string, p: UrlParts, d: QueryDict, c: string, sid: string)
    requires UrlParse(url) == Some(p)
    requires ParseQs(p.query) == d + [("_src", [c])] + [("_sid", [sid])]
    requires "_src" !in QKeys(d) && "_sid" !in QKeys(d)
    ensures ExtractTracking(url) == Some(Extracted(EngineOfCode(c), sid, UrlUnparse(p.(query := Urlencode(d)))))
  {
    PopKeyAfter(d, "_src", [c], [("_sid", [sid])], ["u"]);
    var rest: QueryDict := [];
    PopKeyAfter(d, "_sid", [sid], rest, [""]);
    assert d + [("_sid", [sid])] + rest == d + [("_sid", [sid])];
    assert d + rest == d;
    assert PopKey(ParseQs(p.query), "_src", ["u"]) == ([c], d + [("_sid", [sid])]);
    assert PopKey(d + [("_sid", [sid])], "_sid", [""]) == ([sid], d);
  }

  /** Tracking then extracting gives back the engine (or "unknown" for an engine
      outside `ENGINE_CODES`), the search id and the original URL. */
  lemma TrackingRoundTrip(u: string, engine: string, sid: string)
    requires Untracked(u)
    requires ValueOk(sid) && NoChar(sid, '#')
    ensures AddTracking(u, engine, sid).Some?
    ensures ExtractTracking(AddTracking(u, engine, sid).value)
      == Some(Extracted(if EngineCode(engine).Some? then engine else "unknown", sid, u))
  {
    var p := UrlParse(u).value;
    var c := SourceCode(engine);
    var d := ParseQs(p.query);
    var d2 := d + [("_src", [c])] + [("_sid", [sid])];
    AddTrackingIs(u, engine, sid);
    var q' := Urlencode(d2);
    ReplaceQuery(u, p, q');
    QueryRoundTrip(d2);
    ExtractIs(AddTracking(u, engine, sid).value, p.(query := q'), d, c, sid);
    EngineCodesInvert(engine, c);
    assert p.(query := q').(query := Urlencode(d)) == p;
  }

  // ---- Search ids ----

  /** A UTC clock reading, to the microsecond. */
  datatype Instant = Instant(date: Date, hour: int, minute: int, second: int, micro: int)

  predicate ValidInstant(t: Instant)
  {
    ValidDate(t.date) && 1000 <= t.date.year
    && 0 <= t.hour < 24 && 0 <= t.minute < 60 && 0 <= t.second < 60 && 0 <= t.micro < 1000000
  }

  /** Digits(n, 6) keeps its first three digits when the last three are dropped. */
  lemma MillisPrefix(n: nat)
    ensures Digits(n, 6)[..3] == Digits(n / 1000, 3)
  {
    var a := n / 10;
    var b := a / 10;
    DigitsInit(n, 5);
    DigitsInit(a, 4);
    DigitsInit(b, 3);
    assert b / 10 == n / 1000;
    var d := Digits(n, 6);
    assert d[..3] == d[..5][..4][..3];
  }

  /** Dropping the last of w + 1 digits leaves the w digits of n / 10. */
  lemma DigitsInit(n: nat, w: nat)
    ensures Digits(n, w + 1)[..w] == Digits(n / 10, w)
  {
  }

  /** `utcnow().strftime("%Y%m%d_%H%M%S_%f")[:-3]` */
  function SearchId(t: Instant): (id: string)
    requires ValidInstant(t)
  {
    SliceTo(Digits(t.date.year, 4) + Digits(t.date.month, 2) + Digits(t.date.day, 2) + "_"
      + Digits(t.hour, 2) + Digits(t.minute, 2) + Digits(t.second, 2) + "_"
      + Digits(t.micro, 6), -3)
  }

  /** The id is the date digits, '_', the time digits, '_' and the milliseconds. */
  lemma SearchIdParts(t: Instant)
    requires ValidInstant(t)
    ensures SearchId(t) == Digits(t.date.year, 4) + Digits(t.date.month, 2) + Digits(t.date.day, 2) + "_"
      + Digits(t.hour, 2) + Digits(t.minute, 2) + Digits(t.second, 2) + "_"
      + Digits(t.micro / 1000, 3)
  {
    var a := Digits(t.date.year, 4) + Digits(t.date.month, 2) + Digits(t.date.day, 2) + "_"
      + Digits(t.hour, 2) + Digits(t.minute, 2) + Digits(t.second, 2) + "_";
    var c := Digits(t.micro, 6);
    assert |a| == 16;
    assert SearchId(t) == (a + c)[..19];
    assert (a + c)[..19] == a + c[..3];
    MillisPrefix(t.micro);
  }

  /** A search id has the shape YYYYMMDD_HHMMSS_mmm: 19 characters, underscores at
      positions 8 and 15 and digits everywhere else; the digits spell the date, the
      time and the milliseconds of the clock reading. */
  lemma SearchIdShape(t: Instant)
    requires ValidInstant(t)
    ensures var id := SearchId(t);
      |id| == 19 && id[8] == '_' && id[15] == '_'
      && (forall i :: 0 <= i < 19 && i != 8 && i != 15 ==> IsDigit(id[i]))
      && id[..8] == Digits(t.date.year, 4) + Digits(t.date.month, 2) + Digits(t.date.day, 2)
      && id[9..15] == Digits(t.hour, 2) + Digits(t.minute, 2) + Digits(t.second, 2)
      && id[16..] == Digits(t.micro / 1000, 3)
  {
    SearchIdParts(t);
    var x := Digits(t.date.year, 4) + Digits(t.date.month, 2) + Digits(t.date.day, 2);
    var y := Digits(t.hour, 2) + Digits(t.minute, 2) + Digits(t.second, 2);
    var z := Digits(t.micro / 1000, 3);
    var id := SearchId(t);
    assert id == x + "_" + y + "_" + z;
    assert forall i :: 0 <= i < 8 ==> id[i] == x[i];
    assert forall i :: 9 <= i < 15 ==> id[i] == y[i - 9];
    assert forall i :: 16 <= i < 19 ==> id[i] == z[i - 16];
    assert id[..8] == x;
    assert id[9..15] == y;
    assert id[16..] == z;
  }
}
