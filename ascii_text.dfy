/** Text helpers for the two string tests in app.py: ASCII lowercasing
    (Python's `str.lower()` restricted to ASCII) and substring containment
    (Python's `needle in haystack` on `str`). */
module AsciiText {

  predicate IsUpper(c: char) {
    'A' <= c <= 'Z'
  }

  /** ASCII lowercase of one character; every other character is unchanged. */
  function LowerChar(c: char): (d: char)
    ensures IsUpper(c) ==> d as int == c as int + 32
    ensures !IsUpper(c) ==> d == c
    ensures !IsUpper(d)
  {
    if IsUpper(c) then (c as int + 32) as char else c
  }

  /** ASCII uppercase of one character; used only as an independent reference
      for case-insensitive comparison. */
  function UpperChar(c: char): char {
    if 'a' <= c <= 'z' then (c as int - 32) as char else c
  }

  /** `s.lower()`, restricted to ASCII letters. */
  function Lower(s: string): (r: string)
    ensures |r| == |s|
    ensures forall i :: 0 <= i < |s| ==> r[i] == LowerChar(s[i])
  {
    if s == [] then [] else [LowerChar(s[0])] + Lower(s[1..])
  }

  lemma LowerIdempotent(s: string)
    ensures Lower(Lower(s)) == Lower(s)
  {
  }

  /** A string without ASCII capitals is its own lowercase form. */
  lemma LowerFixesLowercase(s: string)
    requires forall i :: 0 <= i < |s| ==> !IsUpper(s[i])
    ensures Lower(s) == s
  {
  }

  /** `needle` occurs in `haystack` starting at offset `i`. */
  ghost predicate OccursAt(needle: string, haystack: string, i: int) {
    0 <= i <= |haystack| - |needle| && haystack[i..i + |needle|] == needle
  }

  /** Reference definition of containment: `needle` occurs at some offset. */
  ghost predicate OccursIn(needle: string, haystack: string) {
    exists i :: OccursAt(needle, haystack, i)
  }

  /** `needle in haystack`, computed by scanning from the left. */
  function Contains(haystack: string, needle: string): bool
    decreases |haystack|
  {
    if |haystack| < |needle| then false
    else haystack[..|needle|] == needle || Contains(haystack[1..], needle)
  }

  /** The scan finds `needle` exactly when it occurs at some offset. */
  lemma {:induction false} ContainsIff(haystack: string, needle: string)
    ensures Contains(haystack, needle) <==> OccursIn(needle, haystack)
    decreases |haystack|
  {
    var n := |needle|;
    if |haystack| < n {
    } else if haystack[..n] == needle {
      assert OccursAt(needle, haystack, 0);
    } else {
      var tail := haystack[1..];
      ContainsIff(tail, needle);
      if OccursIn(needle, tail) {
        var i :| OccursAt(needle, tail, i);
        assert haystack[i + 1..i + 1 + n] == tail[i..i + n];
        assert OccursAt(needle, haystack, i + 1);
      }
      if OccursIn(needle, haystack) {
        var i :| OccursAt(needle, haystack, i);
        assert i != 0;
        assert tail[i - 1..i - 1 + n] == haystack[i..i + n];
        assert OccursAt(needle, tail, i - 1);
      }
    }
  }

  /** Text around an occurrence does not hide it: containment survives any
      prefix and suffix (further lines of a process listing, say). */
  lemma ContainsInContext(before: string, needle: string, after: string)
    ensures Contains(before + needle + after, needle)
  {
    var h := before + needle + after;
    assert h[|before|..|before| + |needle|] == needle;
    assert OccursAt(needle, h, |before|);
    ContainsIff(h, needle);
  }
}
