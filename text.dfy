/** The string primitives the Python code relies on (`str.lower`, `str.strip`,
    `str.split()`, `" ".join`, `str.isupper`), restricted to ASCII: letters
    outside A-Z/a-z are neither upper nor lower case, and the whitespace class
    is the ASCII characters Python's `str.isspace` accepts: space, tab, the line
    breaks, vertical tab, form feed and the separators 0x1C-0x1F. */
module Text {

  const Whitespace: set<char> :=
    {' ', '\t', '\n', '\r', '\U{000B}', '\U{000C}', '\U{001C}', '\U{001D}', '\U{001E}', '\U{001F}'}

  predicate IsSpace(c: char)
  {
    c in Whitespace
  }

  predicate IsUpperChar(c: char) { 'A' <= c <= 'Z' }
  predicate IsLowerChar(c: char) { 'a' <= c <= 'z' }
  predicate IsDigit(c: char) { '0' <= c <= '9' }
  predicate IsAlpha(c: char) { IsUpperChar(c) || IsLowerChar(c) }

  function LowerChar(c: char): (d: char)
    ensures !IsUpperChar(d)
    ensures IsSpace(d) <==> IsSpace(c)
    ensures !IsUpperChar(c) ==> d == c
  {
    if IsUpperChar(c) then (c as int + 32) as char else c
  }

  /** `s.lower()` */
  function Lower(s: string): (r: string)
    ensures |r| == |s| && forall i :: 0 <= i < |s| ==> r[i] == LowerChar(s[i])
  {
    seq(|s|, i requires 0 <= i < |s| => LowerChar(s[i]))
  }

  predicate AllSpace(s: string) { forall i :: 0 <= i < |s| ==> IsSpace(s[i]) }

  /** No two adjacent ' ' characters. */
  predicate NoDoubleSpace(s: string)
  {
    forall i :: 0 <= i < |s| - 1 ==> !(s[i] == ' ' && s[i + 1] == ' ')
  }

  /** The end of the run of whitespace that starts at i. */
  function SpaceRunFrom(s: string, i: nat): (k: nat)
    requires i <= |s|
    ensures i <= k <= |s|
    ensures forall j :: i <= j < k ==> IsSpace(s[j])
    ensures k < |s| ==> !IsSpace(s[k])
    decreases |s| - i
  {
    if i < |s| && IsSpace(s[i]) then SpaceRunFrom(s, i + 1) else i
  }

  /** The start of the run of whitespace that ends at e. */
  function SpaceRunBefore(s: string, e: nat): (k: nat)
    requires e <= |s|
    ensures k <= e
    ensures forall j :: k <= j < e ==> IsSpace(s[j])
    ensures k > 0 ==> !IsSpace(s[k - 1])
    decreases e
  {
    if e > 0 && IsSpace(s[e - 1]) then SpaceRunBefore(s, e - 1) else e
  }

  /** `s.strip()`: the slice of s between its leading and trailing whitespace. */
  function Strip(s: string): (r: string)
    ensures r == [] || (!IsSpace(r[0]) && !IsSpace(r[|r| - 1]))
    ensures r == [] <==> AllSpace(s)
    ensures NoDoubleSpace(s) ==> NoDoubleSpace(r)
  {
    var a := SpaceRunFrom(s, 0);
    var e := SpaceRunBefore(s, |s|);
    if a == |s| then
      []
    else
      assert !IsSpace(s[a]);
      assert a < e;
      NoDoubleSpaceSlice(s, a, e);
      s[a..e]
  }

  /** A slice of a text without double spaces has none either. */
  lemma NoDoubleSpaceSlice(s: string, a: nat, b: nat)
    requires a <= b <= |s|
    ensures NoDoubleSpace(s) ==> NoDoubleSpace(s[a..b])
  {
    if NoDoubleSpace(s) {
      forall i | 0 <= i < b - a - 1 ensures !(s[a..b][i] == ' ' && s[a..b][i + 1] == ' ') {
        assert s[a..b][i] == s[a + i] && s[a..b][i + 1] == s[a + i + 1];
      }
    }
  }

  /** Length of the run of non-whitespace characters at the start of s. */
  function WordLen(s: string): (k: nat)
    ensures k <= |s|
    ensures forall i :: 0 <= i < k ==> !IsSpace(s[i])
    ensures k < |s| ==> IsSpace(s[k])
  {
    if |s| == 0 || IsSpace(s[0]) then 0 else 1 + WordLen(s[1..])
  }

  predicate IsWord(w: string) { |w| > 0 && forall i :: 0 <= i < |w| ==> !IsSpace(w[i]) }

  /** `s.split()`: the maximal runs of non-whitespace characters, in order. */
  function Words(s: string): (ws: seq<string>)
    ensures forall i :: 0 <= i < |ws| ==> IsWord(ws[i])
    ensures ws == [] <==> AllSpace(s)
    decreases |s|
  {
    if |s| == 0 then []
    else if IsSpace(s[0]) then
      var ws := Words(s[1..]);
      assert AllSpace(s[1..]) ==> AllSpace(s) by {
        if AllSpace(s[1..]) {
          forall i | 0 <= i < |s| ensures IsSpace(s[i]) { if i > 0 { assert s[i] == s[1..][i - 1]; } }
        }
      }
      ws
    else
      var k := WordLen(s);
      [s[..k]] + Words(s[k..])
  }

  /** `sep.join(ws)` */
  function Join(ws: seq<string>, sep: string): string
  {
    if ws == [] then "" else if |ws| == 1 then ws[0] else ws[0] + sep + Join(ws[1..], sep)
  }

  /** `c in s` for a single character. */
  predicate Contains(s: string, c: char) { exists i :: 0 <= i < |s| && s[i] == c }

  predicate StartsWith(s: string, prefix: string)
  {
    |prefix| <= |s| && s[..|prefix|] == prefix
  }

  predicate EndsWith(s: string, suffix: string)
  {
    |suffix| <= |s| && s[|s| - |suffix|..] == suffix
  }

  /** Python's `s.isupper()`: some cased character, and none of them lower case. */
  predicate IsUpperStr(s: string)
  {
    (exists i :: 0 <= i < |s| && IsUpperChar(s[i])) && forall i :: 0 <= i < |s| ==> !IsLowerChar(s[i])
  }

  /** Index of the first character of s that belongs to cs, or |s| when there is none. */
  function IndexOfAny(s: string, cs: set<char>): (k: nat)
    ensures k <= |s|
    ensures forall i :: 0 <= i < k ==> s[i] !in cs
    ensures k < |s| ==> s[k] in cs
  {
    if |s| == 0 || s[0] in cs then 0 else 1 + IndexOfAny(s[1..], cs)
  }

  /** The first occurrence of a delimiter is found where the delimiter-free prefix ends. */
  lemma IndexOfAnyConcat(a: string, b: string, cs: set<char>)
    requires forall i :: 0 <= i < |a| ==> a[i] !in cs
    requires b == [] || b[0] in cs
    ensures IndexOfAny(a + b, cs) == |a|
  {
    assert forall i :: 0 <= i < |a| ==> (a + b)[i] == a[i];
    assert b != [] ==> (a + b)[|a|] == b[0];
  }
}
