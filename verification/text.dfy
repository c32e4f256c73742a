/**
 * Character classes and string trimming, restricted to ASCII.
 * Whitespace is the set Python's `str.isspace` and the regex class `\s`
 * accept below 128: tab, line feed, vertical tab, form feed, carriage return,
 * the four separators 0x1C..0x1F, and the space.
 */
module Text {

  predicate IsSpace(c: char)
  {
    c == ' ' || 9 <= c as int <= 13 || 28 <= c as int <= 31
  }

  predicate IsDigit(c: char)
  {
    '0' <= c <= '9'
  }

  /** Every character of `t` is whitespace (true of the empty string). */
  predicate AllSpace(t: string)
  {
    forall k :: 0 <= k < |t| ==> IsSpace(t[k])
  }

  predicate AllDigits(t: string)
  {
    forall k :: 0 <= k < |t| ==> IsDigit(t[k])
  }

  /** ASCII lower-casing; every other character is its own lower case. */
  function Lower(c: char): (r: char)
    ensures 'A' <= c <= 'Z' ==> r as int == c as int + 32
    ensures !('A' <= c <= 'Z') ==> r == c
    ensures IsSpace(r) <==> IsSpace(c)
    ensures IsDigit(r) <==> IsDigit(c)
  {
    if 'A' <= c <= 'Z' then (c as int + 32) as char else c
  }

  /** `t` equals `p` up to ASCII case, as a regex compiled with IGNORECASE compares literals. */
  predicate CaselessEq(t: string, p: string)
  {
    |t| == |p| && forall k :: 0 <= k < |t| ==> Lower(t[k]) == Lower(p[k])
  }

  /** The end of the longest run of characters satisfying `p` starting at `i`. */
  function Run(s: string, i: nat, p: char -> bool): (j: nat)
    requires i <= |s|
    ensures i <= j <= |s|
    ensures forall k :: i <= k < j ==> p(s[k])
    ensures j == |s| || !p(s[j])
    decreases |s| - i
  {
    if i < |s| && p(s[i]) then Run(s, i + 1, p) else i
  }

  /** A maximal run has only one possible end. */
  lemma RunEnd(s: string, i: nat, p: char -> bool, k: nat)
    requires i <= k <= |s|
    requires forall m :: i <= m < k ==> p(s[m])
    requires k == |s| || !p(s[k])
    ensures Run(s, i, p) == k
  {
  }

  /** The start of the longest run of characters satisfying `p` that ends at `j`, not going below `lo`. */
  function RunBack(s: string, lo: nat, j: nat, p: char -> bool): (e: nat)
    requires lo <= j <= |s|
    ensures lo <= e <= j
    ensures forall k :: e <= k < j ==> p(s[k])
    ensures e == lo || !p(s[e - 1])
    decreases j
  {
    if lo < j && p(s[j - 1]) then RunBack(s, lo, j - 1, p) else j
  }

  /** Python's `str.strip()` with no argument: `s[a..e]` with the whitespace around it cut off. */
  function Strip(s: string): (r: string)
    ensures r == [] || (!IsSpace(r[0]) && !IsSpace(r[|r| - 1]))
    ensures var a := Run(s, 0, IsSpace); var e := RunBack(s, a, |s|, IsSpace);
      && r == s[a..e] && AllSpace(s[..a]) && AllSpace(s[e..])
  {
    var a := Run(s, 0, IsSpace);
    var e := RunBack(s, a, |s|, IsSpace);
    assert forall k :: 0 <= k < a ==> s[..a][k] == s[k];
    assert forall k :: 0 <= k < |s| - e ==> s[e..][k] == s[e + k];
    s[a..e]
  }

  /** Stripping leaves nothing exactly when the string is all whitespace. */
  lemma StripEmptyIff(s: string)
    ensures Strip(s) == [] <==> AllSpace(s)
  {
    var a := Run(s, 0, IsSpace);
    var e := RunBack(s, a, |s|, IsSpace);
    if Strip(s) == [] {
      assert e == a;
      assert a == |s|;
      forall k | 0 <= k < |s|
        ensures IsSpace(s[k])
      {
        assert s[..a][k] == s[k];
      }
    } else {
      assert a < |s|;
    }
  }
}
