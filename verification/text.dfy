/**
 Python's notion of whitespace and `str.strip()` with no argument, which the
 application uses to decide whether there is any text to scan.
 */
module Text {

  /** Python's `str.isspace` on one character: the Unicode White_Space
      characters together with the four information separators U+001C..U+001F. */
  predicate IsSpace(c: char) {
    || '\t' <= c <= '\r'
    || '\U{1C}' <= c <= ' '
    || c == '\U{85}' || c == '\U{A0}' || c == '\U{1680}'
    || '\U{2000}' <= c <= '\U{200A}'
    || c == '\U{2028}' || c == '\U{2029}' || c == '\U{202F}' || c == '\U{205F}'
    || c == '\U{3000}'
  }

  /** The ASCII characters `str.isspace` accepts: tab, line feed, vertical
      tab, form feed, carriage return, the four information separators and
      the space. */
  const AsciiSpace: string := "\t\n\U{0B}\U{0C}\r\U{1C}\U{1D}\U{1E}\U{1F} "

  /** On ASCII, `IsSpace` accepts exactly the characters of `AsciiSpace`. */
  lemma IsSpaceAscii(c: char)
    requires c < '\U{80}'
    ensures IsSpace(c) <==> c in AsciiSpace
  {
  }

  /** Every character of `s` is whitespace (vacuously so for the empty string). */
  predicate AllSpace(s: string) {
    forall k :: 0 <= k < |s| ==> IsSpace(s[k])
  }

  /** `s` with its leading whitespace removed. */
  function TrimLeft(s: string): (r: string)
    ensures |r| <= |s| && r == s[|s| - |r|..]
    ensures AllSpace(s[..|s| - |r|])
    ensures r == [] || !IsSpace(r[0])
  {
    if |s| > 0 && IsSpace(s[0]) then
      var r := TrimLeft(s[1..]);
      assert s[..|s| - |r|] == [s[0]] + s[1..][..|s| - 1 - |r|];
      r
    else s
  }

  /** `s` with its trailing whitespace removed. */
  function TrimRight(s: string): (r: string)
    ensures |r| <= |s| && r == s[..|r|]
    ensures AllSpace(s[|r|..])
    ensures r == [] || !IsSpace(r[|r| - 1])
  {
    if |s| > 0 && IsSpace(s[|s| - 1]) then
      var r := TrimRight(s[..|s| - 1]);
      assert s[|r|..] == s[..|s| - 1][|r|..] + [s[|s| - 1]];
      r
    else s
  }

  /** `r` is the slice of `s` starting at `i`, with only whitespace before and after it. */
  predicate SpaceAround(s: string, i: nat, r: string) {
    i + |r| <= |s| && r == s[i..i + |r|] && AllSpace(s[..i]) && AllSpace(s[i + |r|..])
  }

  /** Python's `s.strip()`: `s` without its leading and trailing whitespace.
      The result is a slice of `s` with only whitespace before and after it. */
  function Strip(s: string): (r: string)
    ensures exists i :: SpaceAround(s, i, r)
    ensures r == [] <==> AllSpace(s)
    ensures r == [] || (!IsSpace(r[0]) && !IsSpace(r[|r| - 1]))
  {
    var t := TrimLeft(s);
    var r := TrimRight(t);
    AllSpaceSplit(s, |s| - |t|);
    SliceOfSuffix(s, |s| - |t|, t, r);
    r
  }

  /** A prefix `r` of the suffix `t` of `s` that starts at `i` is the slice of
      `s` at `i`; what surrounds it in `s` is what surrounds `t` and `r`. */
  lemma SliceOfSuffix(s: string, i: nat, t: string, r: string)
    requires i <= |s| && t == s[i..] && AllSpace(s[..i])
    requires |r| <= |t| && r == t[..|r|] && AllSpace(t[|r|..])
    ensures SpaceAround(s, i, r)
  {
    assert r == s[i..i + |r|];
    assert s[i + |r|..] == t[|r|..];
  }

  /** A string is all whitespace exactly when both halves of any split are. */
  lemma AllSpaceSplit(s: string, i: nat)
    requires i <= |s|
    ensures AllSpace(s) <==> AllSpace(s[..i]) && AllSpace(s[i..])
  {
    assert forall k :: 0 <= k < |s| - i ==> s[i..][k] == s[i + k];
  }

  /** Text that `strip()` reduces to the empty string, and so is never scanned. */
  predicate Blank(s: string)
    ensures Blank(s) <==> AllSpace(s)
  {
    Strip(s) == []
  }
}
