/** The parts of Python's `str` that the pipeline relies on: whitespace stripping,
    prefix and suffix tests, case mapping and deletion of every occurrence of a substring. */
module Text {

  /** `str.isspace()` of one character: the characters that `str.strip()` removes. */
  predicate IsSpace(c: char) {
    || c == ' '
    || '\t' <= c <= '\r'
    || '\U{1c}' <= c <= '\U{1f}'
    || c == '\U{85}' || c == '\U{a0}' || c == '\U{1680}'
    || '\U{2000}' <= c <= '\U{200a}'
    || c == '\U{2028}' || c == '\U{2029}' || c == '\U{202f}' || c == '\U{205f}' || c == '\U{3000}'
  }

  /** The number of whitespace characters `s` starts with. */
  function LeadingSpaces(s: string): (n: nat)
    ensures n <= |s|
    ensures forall k :: 0 <= k < n ==> IsSpace(s[k])
    ensures n < |s| ==> !IsSpace(s[n])
  {
    if s == [] || !IsSpace(s[0]) then 0 else 1 + LeadingSpaces(s[1..])
  }

  /** The number of whitespace characters `s` ends with. */
  function TrailingSpaces(s: string): (n: nat)
    ensures n <= |s|
    ensures forall k :: |s| - n <= k < |s| ==> IsSpace(s[k])
    ensures n < |s| ==> !IsSpace(s[|s| - 1 - n])
  {
    if s == [] || !IsSpace(s[|s| - 1]) then 0 else 1 + TrailingSpaces(s[..|s| - 1])
  }

  /** `s.strip()`: the slice of `s` left after removing whitespace at both ends. */
  function Strip(s: string): (r: string)
    ensures LeadingSpaces(s) + |r| <= |s|
    ensures r == s[LeadingSpaces(s)..LeadingSpaces(s) + |r|]
    ensures forall k :: LeadingSpaces(s) + |r| <= k < |s| ==> IsSpace(s[k])
    ensures r != [] ==> !IsSpace(r[0]) && !IsSpace(r[|r| - 1])
    ensures r == [] <==> forall k :: 0 <= k < |s| ==> IsSpace(s[k])
  {
    var t := s[LeadingSpaces(s)..];
    t[..|t| - TrailingSpaces(t)]
  }

  /** The text is empty or whitespace only. */
  predicate Blank(s: string) {
    forall k :: 0 <= k < |s| ==> IsSpace(s[k])
  }

  /** `not s.strip()` holds exactly for the blank texts. */
  lemma BlankIsStripEmpty(s: string)
    ensures Blank(s) <==> Strip(s) == []
  {
  }

  /** A string that neither starts nor ends with whitespace is left alone by `strip()`. */
  lemma StripTrimmed(s: string)
    requires s != [] ==> !IsSpace(s[0]) && !IsSpace(s[|s| - 1])
    ensures Strip(s) == s
  {
    if s != [] {
      var t := s[LeadingSpaces(s)..];
      assert t == s;
      assert TrailingSpaces(t) == 0;
    }
  }

  /** Indentation in front of a non-blank text does not change what `strip()` gives. */
  lemma StripIndented(indent: string, t: string)
    requires forall k :: 0 <= k < |indent| ==> IsSpace(indent[k])
    requires t != [] && !IsSpace(t[0])
    ensures Strip(indent + t) == Strip(t)
  {
    var s := indent + t;
    assert LeadingSpaces(s) == |indent| by {
      assert s[|indent|] == t[0];
    }
    assert s[|indent|..] == t;
    assert LeadingSpaces(t) == 0;
    assert t[0..] == t;
  }

  predicate StartsWith(s: string, prefix: string) {
    |prefix| <= |s| && s[..|prefix|] == prefix
  }

  predicate EndsWith(s: string, suffix: string) {
    |suffix| <= |s| && s[|s| - |suffix|..] == suffix
  }

  /** Upper-casing of one character; only ASCII letters are mapped. */
  function UpperChar(c: char): char {
    if 'a' <= c <= 'z' then (c as int - 32) as char else c
  }

  /** Lower-casing of one character; only ASCII letters are mapped. */
  function LowerChar(c: char): char {
    if 'A' <= c <= 'Z' then (c as int + 32) as char else c
  }

  function Upper(s: string): (r: string)
    ensures |r| == |s| && forall k :: 0 <= k < |s| ==> r[k] == UpperChar(s[k])
  {
    seq(|s|, k requires 0 <= k < |s| => UpperChar(s[k]))
  }

  function Lower(s: string): (r: string)
    ensures |r| == |s| && forall k :: 0 <= k < |s| ==> r[k] == LowerChar(s[k])
  {
    seq(|s|, k requires 0 <= k < |s| => LowerChar(s[k]))
  }

  /** `s.replace(pat, "")`: deletes the non-overlapping occurrences of `pat` found by a
      left-to-right scan. */
  function RemoveAll(s: string, pat: string): (r: string)
    requires pat != []
    ensures |r| <= |s|
    decreases |s|
  {
    if |s| < |pat| then s
    else if s[..|pat|] == pat then RemoveAll(s[|pat|..], pat)
    else [s[0]] + RemoveAll(s[1..], pat)
  }

  /** Text before which no occurrence can start passes through the deletion unchanged. */
  lemma {:induction false} RemoveAllKeepsHead(v: string, t: string, pat: string)
    requires pat != [] && pat[0] !in v
    ensures RemoveAll(v + t, pat) == v + RemoveAll(t, pat)
    decreases |v|
  {
    if v == [] {
      assert v + t == t;
    } else if |v + t| < |pat| {
      assert RemoveAll(t, pat) == t;
    } else {
      calc {
        RemoveAll(v + t, pat);
        { assert (v + t)[..|pat|][0] == v[0] && (v + t)[0] == v[0]; }
        [v[0]] + RemoveAll((v + t)[1..], pat);
        { assert (v + t)[1..] == v[1..] + t; }
        [v[0]] + RemoveAll(v[1..] + t, pat);
        { RemoveAllKeepsHead(v[1..], t, pat); }
        [v[0]] + (v[1..] + RemoveAll(t, pat));
        { assert [v[0]] + v[1..] == v; }
        v + RemoveAll(t, pat);
      }
    }
  }

  /** An occurrence at the very start is deleted. */
  lemma RemoveAllLeading(pat: string, t: string)
    requires pat != []
    ensures RemoveAll(pat + t, pat) == RemoveAll(t, pat)
  {
    assert (pat + t)[..|pat|] == pat;
    assert (pat + t)[|pat|..] == t;
  }
}
