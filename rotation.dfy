// `get_rotated_file` (utils/rotation.py): reuse the newest dated file of a base path
// while it is younger than the rotation period, otherwise delete every dated file
// and name a new one for today. The directory is a set of file names; today's
// date is a parameter.

module Rotation {
  import opened Base
  import opened Text
  import opened Dates

  // ---- Python string order ----

  /** `a < b` on Python strings: code point order, a proper prefix first. */
  predicate LexLess(a: string, b: string)
    decreases |a|
  {
    b != [] && (a == [] || a[0] < b[0] || (a[0] == b[0] && LexLess(a[1..], b[1..])))
  }

  lemma {:induction false} LexIrreflexive(a: string)
    ensures !LexLess(a, a)
    decreases |a|
  {
    if a != [] {
      LexIrreflexive(a[1..]);
    }
  }

  lemma {:induction false} LexTotal(a: string, b: string)
    ensures a == b || LexLess(a, b) || LexLess(b, a)
    decreases |a|
  {
    if a != [] && b != [] && a[0] == b[0] {
      LexTotal(a[1..], b[1..]);
      if a[1..] == b[1..] {
        assert a == [a[0]] + a[1..] && b == [b[0]] + b[1..];
      }
    }
  }

  lemma {:induction false} LexTransitive(a: string, b: string, c: string)
    requires LexLess(a, b) && LexLess(b, c)
    ensures LexLess(a, c)
    decreases |a|
  {
    if a != [] && a[0] == b[0] && b[0] == c[0] {
      LexTransitive(a[1..], b[1..], c[1..]);
    }
  }

  /** `l` is `sorted(names)[-1]`. */
  predicate IsLatest(l: string, names: set<string>)
  {
    l in names && forall n :: n in names ==> n == l || LexLess(n, l)
  }

  /** A non-empty listing has exactly one last name. */
  lemma LatestUnique(l1: string, l2: string, names: set<string>)
    requires IsLatest(l1, names) && IsLatest(l2, names)
    ensures l1 == l2
  {
    if l1 != l2 {
      assert LexLess(l1, l2) && LexLess(l2, l1);
      LexTransitive(l1, l2, l1);
      LexIrreflexive(l1);
    }
  }

  /** `sorted(names)[-1]` for a non-empty listing. */
  method Latest(names: set<string>) returns (l: string)
    requires names != {}
    ensures IsLatest(l, names)
  {
    l :| l in names;
    var seen: set<string> := {l};
    var pending := names - {l};
    while pending != {}
      invariant seen + pending == names && l in seen
      invariant forall n :: n in seen ==> n == l || LexLess(n, l)
      decreases |pending|
    {
      var x :| x in pending;
      LexTotal(x, l);
      if LexLess(l, x) {
        forall n | n in seen
          ensures n == x || LexLess(n, x)
        {
          if n != l {
            LexTransitive(n, l, x);
          }
        }
        l := x;
      }
      seen := seen + {x};
      pending := pending - {x};
    }
  }

  // ---- Names ----

  /** `s.rfind(c)` */
  function RFind(s: string, c: char): (i: int)
    ensures -1 <= i < |s|
    ensures i >= 0 ==> s[i] == c
    ensures forall j :: i < j < |s| ==> s[j] != c
    decreases |s|
  {
    if s == [] then -1 else if s[|s| - 1] == c then |s| - 1 else RFind(s[..|s| - 1], c)
  }

  /** `PurePath(name).stem`: the name without its last suffix, where a suffix needs a
      dot that is neither the first nor the last character. */
  function PathStem(name: string): string
  {
    var i := RFind(name, '.');
    if 0 < i < |name| - 1 then name[..i] else name
  }

  /** `s.split("_")[-1]` */
  function AfterLast(s: string, c: char): string
  {
    s[RFind(s, c) + 1..]
  }

  /** The date a rotated file's name carries; None stands for `strptime`'s ValueError. */
  function DateOfName(name: string): Option<Date>
  {
    ParseDate(AfterLast(PathStem(name), '_'))
  }

  /** The glob pattern f"{stem}_*{suffix}" matches the name. */
  predicate Matches(name: string, stem: string, suffix: string)
  {
    |stem| + 1 + |suffix| <= |name| && StartsWith(name, stem + "_") && EndsWith(name, suffix)
  }

  function Matching(names: set<string>, stem: string, suffix: string): set<string>
  {
    set n | n in names && Matches(n, stem, suffix)
  }

  /** f"{stem}_{today:%Y-%m-%d}{suffix}" */
  function NewName(stem: string, suffix: string, today: Date): string
    requires ValidDate(today)
  {
    stem + "_" + FormatDate(today) + suffix
  }

  /** What `Path.suffix` can be: empty, or a dot and at least one more character,
      with no further dot. */
  predicate PathSuffix(suffix: string)
  {
    suffix == [] || (|suffix| >= 2 && suffix[0] == '.' && forall i :: 1 <= i < |suffix| ==> suffix[i] != '.')
  }

  /** A freshly named file matches the pattern, and when the base path has a suffix
      its name gives back the day it was named for. */
  lemma NewNameDate(stem: string, suffix: string, today: Date)
    requires ValidDate(today) && PathSuffix(suffix)
    ensures Matches(NewName(stem, suffix, today), stem, suffix)
    ensures suffix != [] ==> DateOfName(NewName(stem, suffix, today)) == Some(today)
  {
    var date := FormatDate(today);
    var name := NewName(stem, suffix, today);
    assert name[..|stem + "_"|] == stem + "_";
    assert name[|name| - |suffix|..] == suffix;
    if suffix != [] {
      var dot := |stem| + 1 + |date|;
      assert name[dot] == '.';
      assert forall j :: dot < j < |name| ==> name[j] == suffix[j - dot];
      assert RFind(name, '.') == dot;
      var base := stem + "_" + date;
      assert PathStem(name) == base;
      assert base[|stem|] == '_';
      assert forall j :: |stem| < j < |base| ==> base[j] == date[j - |stem| - 1];
      assert forall j :: 0 <= j < |date| ==> date[j] != '_';
      assert RFind(base, '_') == |stem|;
      assert AfterLast(base, '_') == date;
      ParseFormat(today);
    }
  }

  /** The directory the rotated files live in. */
  class Directory {
    var names: set<string>

    constructor (initial: set<string>)
      ensures names == initial
    {
      names := initial;
    }

    /** `path.unlink()` */
    method Unlink(name: string)
      modifies this
      ensures names == old(names) - {name}
    {
      names := names - {name};
    }
  }

  /** The loop `for old_file in existing: old_file.unlink()`. */
  method UnlinkAll(dir: Directory, existing: set<string>)
    modifies dir
    ensures dir.names == old(dir.names) - existing
  {
    var pending := existing;
    while pending != {}
      invariant dir.names == old(dir.names) - (existing - pending)
      invariant pending <= existing
      decreases |pending|
    {
      var f :| f in pending;
      dir.Unlink(f);
      pending := pending - {f};
    }
  }

  /** Whole days from `file` to `today`: `(now - file_date).days` with `file_date`
      at midnight and `now` some time during `today`. */
  function DaysSince(today: Date, file: Date): int
    requires ValidDate(today) && ValidDate(file)
  {
    DayNumber(today) - DayNumber(file)
  }

  /** `get_rotated_file(base_path, rotation_days)`, with base_path's stem and suffix
      given, and today's date (from year 1000 on, where `%Y` prints four digits). */
  method GetRotatedFile(dir: Directory, stem: string, suffix: string, rotationDays: int, today: Date)
    returns (file: string)
    requires ValidDate(today) && today.year >= 1000
    modifies dir
    ensures var existing := Matching(old(dir.names), stem, suffix);
      (existing == {} ==> file == NewName(stem, suffix, today) && dir.names == old(dir.names))
      && (forall l :: IsLatest(l, existing) ==>
            match DateOfName(l)
            case None => file == NewName(stem, suffix, today) && dir.names == old(dir.names)
            case Some(d) =>
              if DaysSince(today, d) < rotationDays then file == l && dir.names == old(dir.names)
              else file == NewName(stem, suffix, today) && dir.names == old(dir.names) - existing)
  {
    var existing := Matching(dir.names, stem, suffix);
    if existing != {} {
      var latest := Latest(existing);
      forall l | IsLatest(l, existing) ensures l == latest {
        LatestUnique(l, latest, existing);
      }
      var fileDate := DateOfName(latest);
      if fileDate.Some? {
        if DaysSince(today, fileDate.value) < rotationDays {
          return latest;
        }
        UnlinkAll(dir, existing);
      }
    }
    file := NewName(stem, suffix, today);
  }
}
