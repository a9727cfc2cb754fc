/**
 Python's `str.strip()` with no argument, on strings of Unicode code points.

 `strip()` removes from both ends of a string the longest runs of characters for
 which `str.isspace()` holds. The pipeline uses it twice: on the URL typed by the
 user, and on the title after the forbidden characters have been deleted.
 */
module PyStr {

  /** The characters for which Python's `str.isspace()` holds: the ASCII
      controls TAB..CR and FS..US, SPACE, NEL, NO-BREAK SPACE, and the Unicode
      space separators, line and paragraph separators. */
  predicate IsSpace(c: char) {
    var n := c as int;
    || (0x09 <= n <= 0x0D)
    || (0x1C <= n <= 0x20)
    || n == 0x85
    || n == 0xA0
    || n == 0x1680
    || (0x2000 <= n <= 0x200A)
    || n == 0x2028
    || n == 0x2029
    || n == 0x202F
    || n == 0x205F
    || n == 0x3000
  }

  /** True when every character of `s` is whitespace (also for the empty string). */
  predicate AllSpace(s: string) {
    forall i :: 0 <= i < |s| ==> IsSpace(s[i])
  }

  /** The length of the longest all-whitespace prefix of `s`. */
  function LeadingSpaceCount(s: string): (n: nat)
    ensures n <= |s|
    ensures AllSpace(s[..n])
    ensures n == |s| || !IsSpace(s[n])
  {
    if |s| > 0 && IsSpace(s[0]) then
      var m := LeadingSpaceCount(s[1..]);
      assert s[1..][..m] == s[1..m + 1];
      1 + m
    else
      0
  }

  /** The length of the longest all-whitespace suffix of `s`. */
  function TrailingSpaceCount(s: string): (n: nat)
    ensures n <= |s|
    ensures AllSpace(s[|s| - n..])
    ensures n == |s| || !IsSpace(s[|s| - n - 1])
  {
    if |s| > 0 && IsSpace(s[|s| - 1]) then
      var m := TrailingSpaceCount(s[..|s| - 1]);
      assert s[..|s| - 1][|s| - 1 - m..] == s[|s| - 1 - m..|s| - 1];
      1 + m
    else
      0
  }

  /** `s` with leading and trailing whitespace removed, as `s.strip()`.
      The result is the slice of `s` that starts after the leading whitespace
      and stops before a run of whitespace reaching the end of `s`; it neither
      starts nor ends with whitespace. */
  function Strip(s: string): (r: string)
    ensures |r| <= |s|
    ensures var n := LeadingSpaceCount(s);
            && n + |r| <= |s|
            && r == s[n..n + |r|]
            && AllSpace(s[n + |r|..])
    ensures r == [] || (!IsSpace(r[0]) && !IsSpace(r[|r| - 1]))
  {
    var n := LeadingSpaceCount(s);
    if n == |s| then []
    else
      TrailingSpaceCountBelow(s, n);
      s[n..|s| - TrailingSpaceCount(s)]
  }

  /** The trailing whitespace run stops after any character that is not
      whitespace. */
  lemma TrailingSpaceCountBelow(s: string, j: nat)
    requires j < |s| && !IsSpace(s[j])
    ensures TrailingSpaceCount(s) < |s| - j
  {
  }

  /** `LeadingSpaceCount` is the only count its contract allows. */
  lemma {:induction false} LeadingSpaceCountUnique(s: string, i: nat)
    requires i <= |s| && AllSpace(s[..i])
    requires i == |s| || !IsSpace(s[i])
    ensures LeadingSpaceCount(s) == i
  {
    if i > 0 {
      assert s[..i][0] == s[0];
      assert s[1..][..i - 1] == s[1..i];
      LeadingSpaceCountUnique(s[1..], i - 1);
    }
  }

  /** `TrailingSpaceCount` is the only count its contract allows. */
  lemma TrailingSpaceCountUnique(s: string, i: nat)
    requires i <= |s| && AllSpace(s[|s| - i..])
    requires i == |s| || !IsSpace(s[|s| - i - 1])
    ensures TrailingSpaceCount(s) == i
  {
  }

  /** Reference characterisation of `Strip`: any slice `s[i..j]` with only
      whitespace outside it and no whitespace at either of its ends is the
      stripped string. Together with `Strip`'s contract this pins `Strip` down
      completely. */
  lemma StripUnique(s: string, i: nat, j: nat)
    requires i <= j <= |s|
    requires AllSpace(s[..i]) && AllSpace(s[j..])
    requires i < j ==> !IsSpace(s[i]) && !IsSpace(s[j - 1])
    ensures Strip(s) == s[i..j]
  {
    if i < j {
      LeadingSpaceCountUnique(s, i);
      TrailingSpaceCountUnique(s, |s| - j);
    } else {
      assert AllSpace(s) by {
        forall k | 0 <= k < |s| ensures IsSpace(s[k]) {
          if k < i { assert s[..i][k] == s[k]; } else { assert s[j..][k - j] == s[k]; }
        }
      }
      assert s[..|s|] == s;
      LeadingSpaceCountUnique(s, |s|);
    }
  }

  /** Stripping twice is stripping once. */
  lemma StripIdempotent(s: string)
    ensures Strip(Strip(s)) == Strip(s)
  {
    var r := Strip(s);
    assert r[..0] == [] && r[|r|..] == [];
    StripUnique(r, 0, |r|);
  }

  /** A string strips to nothing exactly when it is all whitespace; this is the
      test `not url` applies to the stripped input line. */
  lemma StripEmptyIff(s: string)
    ensures Strip(s) == [] <==> AllSpace(s)
  {
    if AllSpace(s) {
      assert s[..0] == [] && s[|s|..] == [];
      StripUnique(s, 0, 0);
    }
  }

  /** Stripping a string that already has no whitespace at either end leaves
      it unchanged. */
  lemma StripNoop(s: string)
    requires s == [] || (!IsSpace(s[0]) && !IsSpace(s[|s| - 1]))
    ensures Strip(s) == s
  {
    assert s[..0] == [] && s[|s|..] == [];
    StripUnique(s, 0, |s|);
  }
}
