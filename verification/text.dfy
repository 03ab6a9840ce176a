/**
 * The string matching behind Django's `icontains` lookup: a literal
 * substring test after folding both sides to lower case. Case folding is
 * modelled on ASCII letters only; every other character is left as it is.
 */
module Text {

  predicate IsAsciiUpper(c: char) { 'A' <= c <= 'Z' }

  predicate IsAsciiLower(c: char) { 'a' <= c <= 'z' }

  function LowerChar(c: char): char {
    if IsAsciiUpper(c) then (c as int + 32) as char else c
  }

  function UpperChar(c: char): char {
    if IsAsciiLower(c) then (c as int - 32) as char else c
  }

  function Lower(s: string): string {
    seq(|s|, i requires 0 <= i < |s| => LowerChar(s[i]))
  }

  function Upper(s: string): string {
    seq(|s|, i requires 0 <= i < |s| => UpperChar(s[i]))
  }

  /** `pat` appears in `text` starting at index `i`. */
  predicate OccursAt(text: string, pat: string, i: int) {
    0 <= i <= |text| - |pat| && text[i..i + |pat|] == pat
  }

  /** Case-sensitive substring test: `pat in text` in Python. */
  function Contains(text: string, pat: string): (r: bool)
    ensures r <==> exists i :: OccursAt(text, pat, i)
    decreases |text|
  {
    if |text| < |pat| then
      false
    else if text[..|pat|] == pat then
      assert OccursAt(text, pat, 0);
      true
    else
      assert |pat| > 0;
      OccursShift(text, pat);
      Contains(text[1..], pat)
  }

  /** Once `pat` is known not to start `text`, its occurrences are those in `text[1..]`. */
  lemma OccursShift(text: string, pat: string)
    requires 0 < |pat| <= |text|
    requires !OccursAt(text, pat, 0)
    ensures (exists i :: OccursAt(text, pat, i)) <==> (exists j :: OccursAt(text[1..], pat, j))
  {
    if exists i :: OccursAt(text, pat, i) {
      var i :| OccursAt(text, pat, i);
      assert text[1..][i - 1..i - 1 + |pat|] == text[i..i + |pat|];
      assert OccursAt(text[1..], pat, i - 1);
    }
    if exists j :: OccursAt(text[1..], pat, j) {
      var j :| OccursAt(text[1..], pat, j);
      assert text[1..][j..j + |pat|] == text[j + 1..j + 1 + |pat|];
      assert OccursAt(text, pat, j + 1);
    }
  }

  /** Django's `icontains`: substring test with both sides folded to lower case. */
  function IContains(text: string, pat: string): bool {
    Contains(Lower(text), Lower(pat))
  }

  lemma LowerIdempotent(s: string)
    ensures Lower(Lower(s)) == Lower(s)
  {
  }

  lemma LowerOfUpper(s: string)
    ensures Lower(Upper(s)) == Lower(s)
  {
  }

  /** `icontains` does not see the letter case of either argument. */
  lemma IContainsIgnoresCase(text: string, pat: string)
    ensures IContains(Upper(text), pat) == IContains(text, pat)
    ensures IContains(Lower(text), pat) == IContains(text, pat)
    ensures IContains(text, Upper(pat)) == IContains(text, pat)
    ensures IContains(text, Lower(pat)) == IContains(text, pat)
  {
    LowerOfUpper(text);
    LowerIdempotent(text);
    LowerOfUpper(pat);
    LowerIdempotent(pat);
  }

  /** Folding to lower case keeps every literal occurrence, so `in` implies `icontains`. */
  lemma IContainsOfContains(text: string, pat: string)
    requires Contains(text, pat)
    ensures IContains(text, pat)
  {
    var i :| OccursAt(text, pat, i);
    assert Lower(text)[i..i + |pat|] == Lower(pat);
    assert OccursAt(Lower(text), Lower(pat), i);
  }

  /** Every string `icontains` itself. */
  lemma IContainsSelf(s: string)
    ensures IContains(s, s)
  {
    assert OccursAt(Lower(s), Lower(s), 0);
  }
}
