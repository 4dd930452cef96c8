/** The character classes and case mappings of Python's `str` that the dashboard
    relies on: `\s` in a pattern, `str.strip`, `str.lower` and `str.upper`. */
module Text {

  /** Python's `str.isspace`, which is also what `\s` matches in a `str` pattern. */
  predicate IsSpace(c: char) {
    var n := c as int;
    || 0x09 <= n <= 0x0D
    || 0x1C <= n <= 0x20
    || n == 0x85 || n == 0xA0 || n == 0x1680
    || 0x2000 <= n <= 0x200A
    || n == 0x2028 || n == 0x2029 || n == 0x202F || n == 0x205F || n == 0x3000
  }

  /** `str.lower` on one character, for every character whose lower case is a
      single ASCII letter: the ASCII capitals and the Kelvin sign. Every other
      character is left as it is, which is exact for comparisons against ASCII words. */
  function LowerChar(c: char): char {
    if 'A' <= c <= 'Z' then (c as int + 32) as char
    else if c as int == 0x212A then 'k'
    else c
  }

  /** `str.upper` on one character, for every character whose upper case is a
      single ASCII letter: the ASCII small letters, dotless i and long s. */
  function UpperChar(c: char): char {
    if 'a' <= c <= 'z' then (c as int - 32) as char
    else if c as int == 0x131 then 'I'
    else if c as int == 0x17F then 'S'
    else c
  }

  function Lower(s: string): (r: string)
    ensures |r| == |s|
    ensures forall i :: 0 <= i < |s| ==> r[i] == LowerChar(s[i])
  {
    if s == [] then [] else [LowerChar(s[0])] + Lower(s[1..])
  }

  function Upper(s: string): (r: string)
    ensures |r| == |s|
    ensures forall i :: 0 <= i < |s| ==> r[i] == UpperChar(s[i])
  {
    if s == [] then [] else [UpperChar(s[0])] + Upper(s[1..])
  }

  /** Length of the leading whitespace run of `s`. */
  function LeadingSpace(s: string): (i: nat)
    ensures i <= |s|
    ensures forall m :: 0 <= m < i ==> IsSpace(s[m])
    ensures i < |s| ==> !IsSpace(s[i])
  {
    if s != [] && IsSpace(s[0]) then
      var i := 1 + LeadingSpace(s[1..]);
      assert forall m :: 1 <= m < i ==> s[m] == s[1..][m - 1];
      i
    else 0
  }

  /** Start of the trailing whitespace run of `s`, not searching below `lo`. */
  function TrailingSpace(s: string, lo: nat): (j: nat)
    requires lo <= |s|
    ensures lo <= j <= |s|
    ensures forall m :: j <= m < |s| ==> IsSpace(s[m])
    ensures j > lo ==> !IsSpace(s[j - 1])
    decreases |s|
  {
    if |s| > lo && IsSpace(s[|s| - 1]) then TrailingSpace(s[..|s| - 1], lo) else |s|
  }

  /** `s` is `core` with whitespace around it: `core` is `s[i..j]`, and only whitespace
      lies outside `i..j`. */
  ghost predicate Trims(s: string, core: string) {
    exists i, j {:trigger s[i..j]} ::
      && 0 <= i <= j <= |s| && core == s[i..j]
      && (forall m :: 0 <= m < i ==> IsSpace(s[m]))
      && (forall m :: j <= m < |s| ==> IsSpace(s[m]))
  }

  /** `str.strip()`: the slice left when leading and trailing whitespace is removed. */
  function Strip(s: string): (r: string)
    ensures Trims(s, r)
    ensures r != [] ==> !IsSpace(r[0]) && !IsSpace(r[|r| - 1])
  {
    var i := LeadingSpace(s);
    var j := TrailingSpace(s, i);
    s[i..j]
  }

  /** Stripping twice is stripping once. */
  lemma StripIdempotent(s: string)
    ensures Strip(Strip(s)) == Strip(s)
  {
    var r := Strip(s);
    var i := LeadingSpace(r);
    var j := TrailingSpace(r, i);
    if r != [] {
      assert i == 0;
      assert j == |r|;
    }
    assert r[i..j] == r;
  }
}
