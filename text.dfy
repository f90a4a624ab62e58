/** The Python string operations the scraper relies on: `str.strip()`,
    `str.split(sep)`, `str.splitlines()`, substring search (`t in s`) and
    `str.startswith`. */
module Text {

  /** The characters Python's `str.isspace` accepts, which are the ones
      `str.strip()` removes. */
  predicate IsSpace(c: char)
  {
    || c == ' '
    || ('\t' <= c <= '\r')
    || ('\U{1C}' <= c <= '\U{1F}')
    || c == '\U{85}' || c == '\U{A0}' || c == '\U{1680}'
    || ('\U{2000}' <= c <= '\U{200A}')
    || c == '\U{2028}' || c == '\U{2029}' || c == '\U{202F}'
    || c == '\U{205F}' || c == '\U{3000}'
  }

  /** The characters at which `str.splitlines` ends a line. */
  predicate IsLineBreak(c: char)
  {
    || ('\n' <= c <= '\r')
    || ('\U{1C}' <= c <= '\U{1E}')
    || c == '\U{85}' || c == '\U{2028}' || c == '\U{2029}'
  }

  /** Length of the run of whitespace at the start of `s`. */
  function LeadingSpace(s: string): (k: nat)
    ensures k <= |s|
    ensures forall i :: 0 <= i < k ==> IsSpace(s[i])
    ensures k < |s| ==> !IsSpace(s[k])
  {
    if s != [] && IsSpace(s[0]) then 1 + LeadingSpace(s[1..]) else 0
  }

  /** Length of the run of whitespace at the end of `s`. */
  function TrailingSpace(s: string): (k: nat)
    ensures k <= |s|
    ensures forall i :: |s| - k <= i < |s| ==> IsSpace(s[i])
    ensures k < |s| ==> !IsSpace(s[|s| - 1 - k])
  {
    if s != [] && IsSpace(s[|s| - 1]) then 1 + TrailingSpace(s[..|s| - 1]) else 0
  }

  /** Neither end of `s` is whitespace. */
  predicate IsStripped(s: string)
  {
    s == [] || (!IsSpace(s[0]) && !IsSpace(s[|s| - 1]))
  }

  /** Python's `str.strip()` with no argument: `s` without the whitespace at
      both ends, and nothing else removed. */
  function Strip(s: string): (r: string)
    ensures IsStripped(r)
  {
    var i := LeadingSpace(s);
    var t := s[i..];
    t[..|t| - TrailingSpace(t)]
  }

  /** `strip()` removes exactly the whitespace at the two ends: the result is
      empty exactly when `s` is all whitespace, and otherwise it is the slice
      of `s` after the leading whitespace up to the trailing whitespace. */
  lemma StripSpec(s: string)
    ensures Strip(s) == [] <==> forall i :: 0 <= i < |s| ==> IsSpace(s[i])
    ensures LeadingSpace(s) + |Strip(s)| <= |s|
    ensures Strip(s) == s[LeadingSpace(s)..LeadingSpace(s) + |Strip(s)|]
    ensures forall k :: LeadingSpace(s) + |Strip(s)| <= k < |s| ==> IsSpace(s[k])
  {
    StripEmpty(s);
    StripSlice(s);
  }

  /** `strip()` gives the empty string exactly on all-whitespace strings. */
  lemma StripEmpty(s: string)
    ensures Strip(s) == [] <==> forall i :: 0 <= i < |s| ==> IsSpace(s[i])
  {
    var i := LeadingSpace(s);
    var t := s[i..];
    if Strip(s) == [] {
      assert TrailingSpace(t) == |t|;
    }
  }

  /** `strip()` cuts a slice out of `s`, after the leading whitespace, and
      what follows the slice is whitespace. */
  lemma StripSlice(s: string)
    ensures LeadingSpace(s) + |Strip(s)| <= |s|
    ensures Strip(s) == s[LeadingSpace(s)..LeadingSpace(s) + |Strip(s)|]
    ensures forall k :: LeadingSpace(s) + |Strip(s)| <= k < |s| ==> IsSpace(s[k])
  {
    var i := LeadingSpace(s);
    var t := s[i..];
    var m := |t| - TrailingSpace(t);
    SliceOfSuffix(s, i, m);
    forall k | i + m <= k < |s|
      ensures IsSpace(s[k])
    {
      assert s[k] == t[k - i];
    }
  }

  /** A prefix of a suffix is a slice. */
  lemma SliceOfSuffix(s: string, i: nat, m: nat)
    requires i + m <= |s|
    ensures s[i..][..m] == s[i..i + m]
  {
  }

  /** Stripping a string that has no whitespace at its ends changes nothing,
      so stripping twice is the same as stripping once. */
  lemma StripStripped(s: string)
    requires IsStripped(s)
    ensures Strip(s) == s
  {
    assert LeadingSpace(s) == 0;
    assert TrailingSpace(s) == 0;
  }

  /** Python's `t in s` on two strings: `t` occurs in `s` as a substring. */
  predicate Contains(s: string, t: string)
    decreases |s|
  {
    t <= s || (s != [] && Contains(s[1..], t))
  }

  /** A string ends with `t`, so it contains `t`. */
  lemma {:induction false} ContainsSuffix(a: string, t: string)
    ensures Contains(a + t, t)
  {
    if a != [] {
      assert (a + t)[1..] == a[1..] + t;
      ContainsSuffix(a[1..], t);
    }
  }

  /** Python's `s.split(d)` for a one-character separator: the pieces between
      separators, empty ones included; there is always at least one. */
  function Split(s: string, d: char): (r: seq<string>)
    ensures |r| >= 1
    ensures forall p :: p in r ==> d !in p
  {
    if s == [] then [""]
    else
      var rest := Split(s[1..], d);
      if s[0] == d then [""] + rest else [[s[0]] + rest[0]] + rest[1..]
  }

  /** Python's `d.join(ps)`. */
  function Join(ps: seq<string>, d: char): string
    requires |ps| >= 1
  {
    if |ps| == 1 then ps[0] else ps[0] + [d] + Join(ps[1..], d)
  }

  /** Splitting loses nothing: joining the pieces with the separator gives
      back the original string. */
  lemma {:induction false} JoinSplit(s: string, d: char)
    ensures Join(Split(s, d), d) == s
  {
    if s != [] {
      var rest := Split(s[1..], d);
      JoinSplit(s[1..], d);
      if s[0] == d {
        assert Split(s, d)[1..] == rest;
      } else if |rest| == 1 {
        assert Split(s, d) == [[s[0]] + rest[0]];
      } else {
        assert Split(s, d)[1..] == rest[1..];
        assert Join(rest, d) == rest[0] + [d] + Join(rest[1..], d);
      }
    }
  }

  /** Splitting at a separator splits the two sides on their own. */
  lemma {:induction false} SplitAppend(a: string, b: string, d: char)
    ensures Split(a + [d] + b, d) == Split(a, d) + Split(b, d)
  {
    var s := a + [d] + b;
    if a == [] {
      assert s[0] == d && s[1..] == b;
    } else {
      assert s[0] == a[0] && s[1..] == a[1..] + [d] + b;
      SplitAppend(a[1..], b, d);
    }
  }

  /** Every character of `Strip(s)` is a character of `s`. */
  lemma StripChars(s: string)
    ensures forall c :: c in Strip(s) ==> c in s
  {
    var r, i := Strip(s), LeadingSpace(s);
    forall c | c in r ensures c in s {
      var k :| 0 <= k < |r| && r[k] == c;
      assert s[i + k] == c;
    }
  }

  /** A string without the separator splits into itself alone. */
  lemma {:induction false} SplitWithoutSeparator(s: string, d: char)
    requires d !in s
    ensures Split(s, d) == [s]
  {
    if s != [] {
      SplitWithoutSeparator(s[1..], d);
      assert [s[0]] + s[1..] == s;
    }
  }

  /** Python's `str.splitlines()`: the lines of `s`, none of which contains a
      line break; `\r\n` ends a single line, and a break at the very end does
      not start an empty last line. */
  function SplitLines(s: string): (r: seq<string>)
    ensures forall k, c :: 0 <= k < |r| && c in r[k] ==> !IsLineBreak(c)
  {
    LinesFrom(s, "")
  }

  /** The lines of `s`, where `cur` is the beginning of the current line. */
  function LinesFrom(s: string, cur: string): (r: seq<string>)
    requires forall c :: c in cur ==> !IsLineBreak(c)
    ensures forall k, c :: 0 <= k < |r| && c in r[k] ==> !IsLineBreak(c)
    decreases |s|
  {
    if s == [] then
      if cur == [] then [] else [cur]
    else if IsLineBreak(s[0]) then
      var skip := if s[0] == '\r' && |s| > 1 && s[1] == '\n' then 2 else 1;
      [cur] + LinesFrom(s[skip..], "")
    else
      LinesFrom(s[1..], cur + [s[0]])
  }

  /** A text without line breaks is a single line (or no line at all when it
      is empty). */
  lemma {:induction false} SplitLinesSingle(s: string, cur: string)
    requires forall c :: c in cur ==> !IsLineBreak(c)
    requires forall c :: c in s ==> !IsLineBreak(c)
    ensures LinesFrom(s, cur) == if cur + s == [] then [] else [cur + s]
    decreases |s|
  {
    if s != [] {
      assert cur + [s[0]] + s[1..] == cur + s;
      SplitLinesSingle(s[1..], cur + [s[0]]);
    } else {
      assert cur + s == cur;
    }
  }

  /** A line ended by `\n` is the first line, and the rest of the text is
      split on its own. */
  lemma {:induction false} SplitLinesNewline(a: string, b: string, cur: string)
    requires forall c :: c in cur ==> !IsLineBreak(c)
    requires forall c :: c in a ==> !IsLineBreak(c)
    ensures LinesFrom(a + "\n" + b, cur) == [cur + a] + LinesFrom(b, "")
    decreases |a|
  {
    var s := a + "\n" + b;
    if a == [] {
      assert s[0] == '\n' && s[1..] == b;
      assert cur + a == cur;
    } else {
      assert s[0] == a[0] && s[1..] == a[1..] + "\n" + b;
      assert cur + [a[0]] + a[1..] == cur + a;
      SplitLinesNewline(a[1..], b, cur + [a[0]]);
    }
  }
}
