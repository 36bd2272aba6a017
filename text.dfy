/** The string operations the uploader uses: `str.strip()`, `str.endswith` and `in` on strings. */
module Text {

  /** The characters Python's `str.isspace()` accepts, which `str.strip()` removes. */
  predicate IsSpace(c: char) {
    var n := c as int;
    n == 0x20 || 0x09 <= n <= 0x0D || 0x1C <= n <= 0x1F || n == 0x85 || n == 0xA0 || n == 0x1680 ||
    0x2000 <= n <= 0x200A || n == 0x2028 || n == 0x2029 || n == 0x202F || n == 0x205F || n == 0x3000
  }

  predicate AllSpace(s: string) {
    forall i :: 0 <= i < |s| ==> IsSpace(s[i])
  }

  /** Neither the first nor the last character is whitespace. */
  predicate IsTrimmed(s: string) {
    s == [] || (!IsSpace(s[0]) && !IsSpace(s[|s| - 1]))
  }

  /** `s.lstrip()`: `s` without its leading whitespace. */
  function TrimStart(s: string): string {
    if s != [] && IsSpace(s[0]) then TrimStart(s[1..]) else s
  }

  /** `s.rstrip()`: `s` without its trailing whitespace. */
  function TrimEnd(s: string): string {
    if s != [] && IsSpace(s[|s| - 1]) then TrimEnd(s[..|s| - 1]) else s
  }

  /** `s.strip()`. */
  function Strip(s: string): string {
    TrimEnd(TrimStart(s))
  }

  /** What `lstrip()` removes is a whitespace prefix, and what is left does not start with whitespace. */
  lemma {:induction false} TrimStartSpec(s: string)
    ensures var r := TrimStart(s);
      |r| <= |s| && r == s[|s| - |r|..] && AllSpace(s[..|s| - |r|]) && (r == [] || !IsSpace(r[0]))
    decreases |s|
  {
    if s != [] && IsSpace(s[0]) {
      TrimStartSpec(s[1..]);
      var r := TrimStart(s);
      assert s[1..][|s| - 1 - |r|..] == s[|s| - |r|..];
    }
  }

  /** What `rstrip()` removes is a whitespace suffix, and what is left does not end with whitespace. */
  lemma {:induction false} TrimEndSpec(s: string)
    ensures var r := TrimEnd(s);
      |r| <= |s| && r == s[..|r|] && AllSpace(s[|r|..]) && (r == [] || !IsSpace(r[|r| - 1]))
    decreases |s|
  {
    if s != [] && IsSpace(s[|s| - 1]) {
      TrimEndSpec(s[..|s| - 1]);
      var r := TrimEnd(s);
      assert s[..|s| - 1][..|r|] == s[..|r|];
      assert s[|r|..] == s[..|s| - 1][|r|..] + [s[|s| - 1]];
    }
  }

  /**
   * What `strip()` means: the result is the part of `s` left after cutting a
   * run of whitespace from each end, and it neither starts nor ends with
   * whitespace.
   */
  lemma StripSpec(s: string)
    ensures var r := Strip(s);
      IsTrimmed(r) &&
      exists i, j :: 0 <= i <= j <= |s| && r == s[i..j] && AllSpace(s[..i]) && AllSpace(s[j..])
  {
    var l := TrimStart(s);
    TrimStartSpec(s);
    var r := TrimEnd(l);
    TrimEndSpec(l);
    var i := |s| - |l|;
    var j := i + |r|;
    assert r == s[i..j];
    assert s[j..] == l[|r|..];
    if r != [] {
      assert r[0] == l[0];
    }
  }

  /** Stripping twice is stripping once. */
  lemma StripIdempotent(s: string)
    ensures Strip(Strip(s)) == Strip(s)
  {
    var r := Strip(s);
    StripSpec(s);
    TrimmedIsFixed(r);
  }

  lemma TrimmedIsFixed(s: string)
    requires IsTrimmed(s)
    ensures Strip(s) == s
  {
  }

  predicate EndsWith(s: string, suffix: string) {
    |suffix| <= |s| && s[|s| - |suffix|..] == suffix
  }

  /** Python's `needle in haystack` for two strings: a scan from the left. */
  predicate IsSubstring(needle: string, haystack: string)
    decreases |haystack|
  {
    |needle| <= |haystack| &&
    (haystack[..|needle|] == needle || (haystack != [] && IsSubstring(needle, haystack[1..])))
  }

  predicate OccursAt(needle: string, haystack: string, i: nat) {
    i + |needle| <= |haystack| && haystack[i..i + |needle|] == needle
  }

  /** The scan finds the needle exactly when it occurs at some position. */
  lemma {:induction false} IsSubstringSpec(needle: string, haystack: string)
    ensures IsSubstring(needle, haystack) <==> exists i :: 0 <= i <= |haystack| && OccursAt(needle, haystack, i)
    decreases |haystack|
  {
    if IsSubstring(needle, haystack) {
      if haystack[..|needle|] == needle {
        assert OccursAt(needle, haystack, 0);
      } else {
        IsSubstringSpec(needle, haystack[1..]);
        var i :| 0 <= i <= |haystack[1..]| && OccursAt(needle, haystack[1..], i);
        assert haystack[i + 1..i + 1 + |needle|] == haystack[1..][i..i + |needle|];
        assert OccursAt(needle, haystack, i + 1);
      }
    }
    if exists i :: 0 <= i <= |haystack| && OccursAt(needle, haystack, i) {
      var i :| 0 <= i <= |haystack| && OccursAt(needle, haystack, i);
      if i > 0 {
        assert haystack[1..][i - 1..i - 1 + |needle|] == haystack[i..i + |needle|];
        assert OccursAt(needle, haystack[1..], i - 1);
        IsSubstringSpec(needle, haystack[1..]);
      }
    }
  }

  /** A suffix is a substring. */
  lemma {:induction false} SuffixIsSubstring(s: string, suffix: string)
    requires EndsWith(s, suffix)
    ensures IsSubstring(suffix, s)
    decreases |s|
  {
    if s[..|suffix|] != suffix {
      assert s[1..][|s| - 1 - |suffix|..] == s[|s| - |suffix|..];
      SuffixIsSubstring(s[1..], suffix);
    }
  }
}
