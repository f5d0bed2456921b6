/** Byte-string helpers shared by the models: searching, prefixes, trimming and
    decimal formatting, written the way the C++ string library behaves. A search
    that finds nothing answers |s|, which plays the part of std::string::npos. */
module Strings {

  /** True when `pat` occurs in `s` starting at index `i`. */
  predicate OccursAt(s: string, pat: string, i: nat)
  {
    i + |pat| <= |s| && s[i..i + |pat|] == pat
  }

  /** An occurrence in the second half of a concatenation is one in that
      half, shifted by the length of the first. */
  lemma OccursAtShift(p: string, s: string, pat: string, k: nat)
    ensures OccursAt(p + s, pat, |p| + k) <==> OccursAt(s, pat, k)
  {
    if k + |pat| <= |s| {
      assert (p + s)[|p| + k..|p| + k + |pat|] == s[k..k + |pat|];
    }
  }

  /** An occurrence that fits in the first half of a concatenation does not
      see the second half. */
  lemma OccursAtExtend(s: string, t: string, pat: string, k: nat)
    requires k + |pat| <= |s|
    ensures OccursAt(s + t, pat, k) <==> OccursAt(s, pat, k)
  {
    assert (s + t)[k..k + |pat|] == s[k..k + |pat|];
  }

  predicate StartsWith(s: string, prefix: string)
  {
    |prefix| <= |s| && s[..|prefix|] == prefix
  }

  /** Index of the first `c` in `s`, or |s| when there is none. */
  function IndexOf(s: string, c: char): (i: nat)
    ensures i <= |s|
    ensures i < |s| ==> s[i] == c
    ensures forall k :: 0 <= k < i ==> s[k] != c
  {
    if s == [] then 0
    else if s[0] == c then 0
    else 1 + IndexOf(s[1..], c)
  }

  /** Index of the first character of `s` that belongs to `chars`
      (std::string::find_first_of), or |s| when there is none. */
  function IndexOfAny(s: string, chars: set<char>): (i: nat)
    ensures i <= |s|
    ensures i < |s| ==> s[i] in chars
    ensures forall k :: 0 <= k < i ==> s[k] !in chars
  {
    if s == [] then 0
    else if s[0] in chars then 0
    else 1 + IndexOfAny(s[1..], chars)
  }

  /** Index of the first occurrence of the non-empty `pat` in `s`, or |s|. */
  function Find(s: string, pat: string): (i: nat)
    requires pat != []
    ensures i <= |s|
    ensures i < |s| ==> OccursAt(s, pat, i)
    ensures forall k :: 0 <= k < i ==> !OccursAt(s, pat, k)
    ensures i == |s| ==> forall k :: 0 <= k <= |s| ==> !OccursAt(s, pat, k)
  {
    if |s| < |pat| then |s|
    else if s[..|pat|] == pat then 0
    else
      var j := Find(s[1..], pat);
      assert forall k :: 1 <= k <= |s| ==> (OccursAt(s, pat, k) <==> OccursAt(s[1..], pat, k - 1)) by {
        assert s == [s[0]] + s[1..];
        forall k | 1 <= k <= |s| ensures OccursAt(s, pat, k) <==> OccursAt(s[1..], pat, k - 1) {
          OccursAtShift([s[0]], s[1..], pat, k - 1);
        }
      }
      1 + j
  }

  /** Number of leading characters of `s` that belong to `chars`. */
  function LeadingRun(s: string, chars: set<char>): (n: nat)
    ensures n <= |s|
    ensures forall k :: 0 <= k < n ==> s[k] in chars
    ensures n < |s| ==> s[n] !in chars
  {
    if s != [] && s[0] in chars then 1 + LeadingRun(s[1..], chars) else 0
  }

  /** Number of trailing characters of `s` that belong to `chars`. */
  function TrailingRun(s: string, chars: set<char>): (n: nat)
    ensures n <= |s|
    ensures forall k :: |s| - n <= k < |s| ==> s[k] in chars
    ensures n < |s| ==> s[|s| - n - 1] !in chars
  {
    if s != [] && s[|s| - 1] in chars then 1 + TrailingRun(s[..|s| - 1], chars) else 0
  }

  /** Both ends trimmed (base::TrimString with TRIM_ALL): the result is the
      piece of `s` that starts after its leading run of `chars`, its ends are not
      in `chars`, and everything cut away is in `chars`. */
  function Trim(s: string, chars: set<char>): (r: string)
    ensures LeadingRun(s, chars) + |r| <= |s|
    ensures r == s[LeadingRun(s, chars)..LeadingRun(s, chars) + |r|]
    ensures forall k :: LeadingRun(s, chars) + |r| <= k < |s| ==> s[k] in chars
    ensures r != [] ==> r[0] !in chars && r[|r| - 1] !in chars
  {
    var a := LeadingRun(s, chars);
    if a == |s| then []
    else
      var b := TrailingRun(s, chars);
      assert b < |s| && |s| - b - 1 >= a;
      s[a..|s| - b]
  }

  /** The characters base::TrimWhitespaceASCII removes: tab, line feed,
      vertical tab, form feed, carriage return and space. */
  const AsciiWhitespace: set<char> := {'\t', '\n', '\U{B}', '\U{C}', '\r', ' '}

  function DigitChar(d: nat): (c: char)
    requires d < 10
    ensures '0' <= c <= '9'
    ensures c as int - '0' as int == d
  {
    ('0' as int + d) as char
  }

  /** Decimal rendering of `n` with no leading zeros. */
  function NatToString(n: nat): (r: string)
    ensures r != []
    ensures forall k :: 0 <= k < |r| ==> '0' <= r[k] <= '9'
    ensures |r| > 1 ==> r[0] != '0'
  {
    if n < 10 then [DigitChar(n)] else NatToString(n / 10) + [DigitChar(n % 10)]
  }
}
