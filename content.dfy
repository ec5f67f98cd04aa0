// Error records and text clean-up for fetched pages (utils/content.py; the root
// server.py carries identical copies). HTML parsing is not modelled: the text
// normalisation starts from the text `soup.get_text()` returns.

module Content {
  import opened Base
  import opened Text

  // ---- Troubleshooting tips ----

  const TimeoutTip := "The website took too long to respond. Try again later or check if the URL is correct."
  const ConnectionTip := "Could not connect to the website. Check your internet connection or if the website is down."
  const Http4xxTip := "Server returned a client error (4xx). The URL might be incorrect or you don't have permission to access it."
  const Http5xxTip := "Server returned a server error (5xx). The website might be experiencing issues, try again later."
  const ParseTip := "Could not parse the website content. The site might use unsupported formatting or scripts."
  const GeneralTip := "An unexpected error occurred. Check the URL and try again later."

  /** The keys of the tips table. */
  const KnownTypes: set<string> := {"timeout", "connection", "http_4xx", "http_5xx", "parse", "general"}

  /** `get_troubleshooting_tips(error_type)`: `tips.get(error_type, tips["general"])`. */
  function TroubleshootingTips(errorType: string): string
  {
    if errorType == "timeout" then TimeoutTip
    else if errorType == "connection" then ConnectionTip
    else if errorType == "http_4xx" then Http4xxTip
    else if errorType == "http_5xx" then Http5xxTip
    else if errorType == "parse" then ParseTip
    else GeneralTip
  }

  /** Every type outside the table gets the general tip, and the six table entries
      are pairwise different, so a specific tip names its error type. */
  lemma TipsTable(a: string, b: string)
    ensures a !in KnownTypes ==> TroubleshootingTips(a) == TroubleshootingTips("general")
    ensures a in KnownTypes && b in KnownTypes && a != b ==> TroubleshootingTips(a) != TroubleshootingTips(b)
  {
    if a in KnownTypes && b in KnownTypes && a != b {
      assert |TimeoutTip| == 85 && |ConnectionTip| == 91 && |Http4xxTip| == 107;
      assert |Http5xxTip| == 96 && |ParseTip| == 90 && |GeneralTip| == 64;
    }
  }

  /** The dictionary `create_error_result` builds; `content` None is `Content None`. */
  datatype ErrorResult = ErrorResult(url: string, success: bool, content: Option<string>, contentLength: int,
                                     truncated: bool, error: string, errorType: string, troubleshooting: string,
                                     timestamp: string, cached: bool)

  /** `create_error_result(url, error_msg, error_type)`; `timestamp` is the ISO text of
      the current time. */
  function CreateErrorResult(url: string, errorMsg: string, errorType: string, timestamp: string): (r: ErrorResult)
    ensures !r.success && r.content.None? && r.contentLength == 0 && !r.truncated && !r.cached
    ensures r.url == url && r.error == errorMsg && r.errorType == errorType && r.timestamp == timestamp
    ensures r.troubleshooting == TroubleshootingTips(errorType)
  {
    ErrorResult(url, false, None, 0, false, errorMsg, errorType, TroubleshootingTips(errorType), timestamp, false)
  }

  // ---- Text normalisation ----

  /** The characters `str.splitlines` breaks at, within ASCII. */
  const LineBreaks: set<char> := {'\n', '\r', '\U{000B}', '\U{000C}', '\U{001C}', '\U{001D}', '\U{001E}'}

  /** `text.splitlines()`, up to empty lines: a "\r\n" pair or a trailing break
      yields an extra empty line here, which the normalisation drops anyway. */
  function SplitLines(s: string): (r: seq<string>)
    ensures |r| >= 1
    ensures AllSpace(s) ==> forall j :: 0 <= j < |r| ==> AllSpace(r[j])
    decreases |s|
  {
    var k := IndexOfAny(s, LineBreaks);
    if k == |s| then [s] else [s[..k]] + SplitLines(s[k + 1..])
  }

  /** Index of the first "  " in s, or |s| when there is none. */
  function FindDoubleSpace(s: string): (k: nat)
    ensures k == |s| || (k + 1 < |s| && s[k] == ' ' && s[k + 1] == ' ')
    ensures forall i :: 0 <= i < k && i + 1 < |s| ==> !(s[i] == ' ' && s[i + 1] == ' ')
    decreases |s|
  {
    if |s| < 2 then |s|
    else if s[0] == ' ' && s[1] == ' ' then 0
    else 1 + FindDoubleSpace(s[1..])
  }

  /** `line.split("  ")`: the pieces between non-overlapping double spaces, read
      from the left. */
  function SplitDoubleSpace(s: string): (r: seq<string>)
    ensures |r| >= 1
    ensures forall j :: 0 <= j < |r| ==> NoDoubleSpace(r[j])
    ensures s == [] ==> r == [""]
    decreases |s|
  {
    var k := FindDoubleSpace(s);
    if k == |s| then [s] else [s[..k]] + SplitDoubleSpace(s[k + 2..])
  }

  function StripAll(ps: seq<string>): (r: seq<string>)
    ensures |r| == |ps| && forall j :: 0 <= j < |ps| ==> r[j] == Strip(ps[j])
  {
    if ps == [] then [] else [Strip(ps[0])] + StripAll(ps[1..])
  }

  /** `phrase.strip() for line in lines for phrase in line.split("  ")`, with
      `lines` already stripped. */
  function Chunks(lines: seq<string>): seq<string>
  {
    if lines == [] then [] else StripAll(SplitDoubleSpace(Strip(lines[0]))) + Chunks(lines[1..])
  }

  function NonEmpty(cs: seq<string>): (r: seq<string>)
    ensures forall j :: 0 <= j < |r| ==> r[j] != [] && r[j] in cs
  {
    if cs == [] then [] else (if cs[0] == [] then [] else [cs[0]]) + NonEmpty(cs[1..])
  }

  /** The text `extract_text_content` returns for the page text `text`. */
  function NormalizeText(text: string): string
  {
    Join(NonEmpty(Chunks(SplitLines(text))), " ")
  }

  /** A chunk is stripped and holds no double space. */
  predicate Tidy(c: string)
  {
    c != [] && !IsSpace(c[0]) && !IsSpace(c[|c| - 1]) && NoDoubleSpace(c)
  }

  lemma {:induction false} ChunksTidy(lines: seq<string>)
    ensures forall c :: c in NonEmpty(Chunks(lines)) ==> Tidy(c)
    decreases |lines|
  {
    if lines != [] {
      ChunksTidy(lines[1..]);
      var head := StripAll(SplitDoubleSpace(Strip(lines[0])));
      var tail := Chunks(lines[1..]);
      PiecesTidy(SplitDoubleSpace(Strip(lines[0])));
      NonEmptyConcat(head, tail);
      assert Chunks(lines) == head + tail;
      forall c | c in NonEmpty(Chunks(lines))
        ensures Tidy(c)
      {
        assert c in NonEmpty(head) || c in NonEmpty(tail);
      }
    }
  }

  /** The stripped pieces of a line that are not empty are tidy. */
  lemma PiecesTidy(ps: seq<string>)
    requires forall j :: 0 <= j < |ps| ==> NoDoubleSpace(ps[j])
    ensures forall c :: c in NonEmpty(StripAll(ps)) ==> Tidy(c)
  {
    var r := StripAll(ps);
    forall j | 0 <= j < |r|
      ensures r[j] != [] ==> Tidy(r[j])
    {
      assert r[j] == Strip(ps[j]);
    }
    forall c | c in NonEmpty(r)
      ensures Tidy(c)
    {
      var j :| 0 <= j < |r| && r[j] == c;
    }
  }

  lemma NonEmptyCons(x: string, a: seq<string>)
    ensures NonEmpty([x] + a) == (if x == [] then [] else [x]) + NonEmpty(a)
  {
    assert ([x] + a)[0] == x && ([x] + a)[1..] == a;
  }

  lemma {:induction false} NonEmptyConcat(a: seq<string>, b: seq<string>)
    ensures NonEmpty(a + b) == NonEmpty(a) + NonEmpty(b)
    decreases |a|
  {
    if a != [] {
      NonEmptyConcat(a[1..], b);
      assert a + b == [a[0]] + (a[1..] + b);
      assert a == [a[0]] + a[1..];
      NonEmptyCons(a[0], a[1..] + b);
      NonEmptyCons(a[0], a[1..]);
      var h := if a[0] == [] then [] else [a[0]];
      assert h + (NonEmpty(a[1..]) + NonEmpty(b)) == (h + NonEmpty(a[1..])) + NonEmpty(b);
    } else {
      assert a + b == b;
    }
  }

  /** Joining tidy chunks with single spaces gives a tidy text, or "" for none. */
  lemma {:induction false} JoinTidy(cs: seq<string>)
    requires forall c :: c in cs ==> Tidy(c)
    ensures cs == [] ==> Join(cs, " ") == ""
    ensures cs != [] ==> Tidy(Join(cs, " "))
    decreases |cs|
  {
    if |cs| > 1 {
      var rest := Join(cs[1..], " ");
      JoinTidy(cs[1..]);
      var s := cs[0] + " " + rest;
      assert cs[0] in cs;
      var n := |cs[0]|;
      forall i | 0 <= i < |s| - 1
        ensures !(s[i] == ' ' && s[i + 1] == ' ')
      {
        if i + 1 < n {
          assert s[i] == cs[0][i] && s[i + 1] == cs[0][i + 1];
        } else if i + 1 == n {
          assert s[i] == cs[0][n - 1];
        } else if i == n {
          assert s[i + 1] == rest[0];
        } else {
          assert s[i] == rest[i - n - 1] && s[i + 1] == rest[i - n];
        }
      }
      assert s[|s| - 1] == rest[|rest| - 1];
    } else if |cs| == 1 {
      assert cs[0] in cs;
    }
  }

  /** The normalised text has no leading or trailing whitespace and no two spaces in
      a row. */
  lemma NormalizeTidy(text: string)
    ensures NormalizeText(text) == [] || Tidy(NormalizeText(text))
  {
    ChunksTidy(SplitLines(text));
    JoinTidy(NonEmpty(Chunks(SplitLines(text))));
  }

  /** Lines that are all whitespace contribute no chunk. */
  lemma {:induction false} BlankLinesNoChunks(lines: seq<string>)
    requires forall j :: 0 <= j < |lines| ==> AllSpace(lines[j])
    ensures NonEmpty(Chunks(lines)) == []
    decreases |lines|
  {
    if lines != [] {
      BlankLinesNoChunks(lines[1..]);
      assert Strip(lines[0]) == "";
      assert SplitDoubleSpace("") == [""];
      assert Strip("") == "";
      var head := StripAll(SplitDoubleSpace(Strip(lines[0])));
      assert head == [""];
      NonEmptyConcat(head, Chunks(lines[1..]));
    }
  }

  /** Whitespace-only text normalises to "". */
  lemma BlankText(text: string)
    requires AllSpace(text)
    ensures NormalizeText(text) == ""
  {
    BlankLinesNoChunks(SplitLines(text));
  }
}
