/**
 The title sanitiser `clean_filename`: delete the characters that are not
 allowed in file names on common file systems, strip surrounding whitespace,
 and keep at most the first 100 characters.
 */
module Filename {
  import opened PyStr

  /** The nine characters `\ / : * ? " < > |` deleted from a title. */
  const ForbiddenChars: set<char> := {'\\', '/', ':', '*', '?', '\"', '<', '>', '|'}

  /** The longest name `clean_filename` returns. */
  const MaxNameLength: nat := 100

  /** True when no character of `s` is forbidden. */
  predicate NoForbidden(s: string) {
    forall i :: 0 <= i < |s| ==> s[i] !in ForbiddenChars
  }

  /** `s` with every forbidden character deleted, as the regular-expression
      substitution of `clean_filename` does. A string without forbidden
      characters is returned unchanged. */
  function RemoveForbidden(s: string): (r: string)
    ensures |r| <= |s|
    ensures NoForbidden(r)
    ensures NoForbidden(s) ==> r == s
  {
    if s == [] then []
    else
      var rest := RemoveForbidden(s[1..]);
      if s[0] in ForbiddenChars then rest else [s[0]] + rest
  }

  /** Every character that is not forbidden is kept, as often as it occurs. */
  lemma {:induction false} RemoveForbiddenKeepsAllowed(s: string)
    ensures forall c :: c !in ForbiddenChars ==> multiset(RemoveForbidden(s))[c] == multiset(s)[c]
  {
    if s != [] {
      assert s == [s[0]] + s[1..];
      RemoveForbiddenKeepsAllowed(s[1..]);
    }
  }

  /** Deleting characters commutes with concatenation: the order of the kept
      characters is the order they had in the input. */
  lemma {:induction false} RemoveForbiddenConcat(a: string, b: string)
    ensures RemoveForbidden(a + b) == RemoveForbidden(a) + RemoveForbidden(b)
  {
    if a != [] {
      var ab := a + b;
      assert ab[0] == a[0] && ab[1..] == a[1..] + b;
      RemoveForbiddenConcat(a[1..], b);
    } else {
      assert a + b == b;
    }
  }

  /** `clean_filename(name)`. The result is at most 100 characters long, holds
      no forbidden character and does not start with whitespace; it is a prefix
      of the filtered and stripped title, and equal to it exactly when that
      string fits in 100 characters. */
  function CleanFilename(name: string): (r: string)
    ensures |r| <= MaxNameLength
    ensures NoForbidden(r)
    ensures var t := Strip(RemoveForbidden(name));
            && r <= t
            && (r == t <==> |t| <= MaxNameLength)
            && |r| == if |t| <= MaxNameLength then |t| else MaxNameLength
    ensures r == [] || !IsSpace(r[0])
  {
    var t := Strip(RemoveForbidden(name));
    if |t| <= MaxNameLength then t else t[..MaxNameLength]
  }

  /** Deleting characters leaves a sub-multiset of the input. */
  lemma {:induction false} RemoveForbiddenSubMultiset(s: string)
    ensures multiset(RemoveForbidden(s)) <= multiset(s)
  {
    if s != [] {
      assert s == [s[0]] + s[1..];
      RemoveForbiddenSubMultiset(s[1..]);
    }
  }

  /** A slice holds a sub-multiset of the characters of the whole. */
  lemma SliceSubMultiset(s: string, sub: string, i: nat)
    requires i + |sub| <= |s| && sub == s[i..i + |sub|]
    ensures multiset(sub) <= multiset(s)
  {
    assert s == s[..i] + sub + s[i + |sub|..];
  }

  /** Stripping keeps a sub-multiset of the characters. */
  lemma StripSubMultiset(s: string)
    ensures multiset(Strip(s)) <= multiset(s)
  {
    SliceSubMultiset(s, Strip(s), LeadingSpaceCount(s));
  }

  /** Sanitising never invents a character: every character of the name
      occurs in the title, at least as often. */
  lemma CleanFilenameKeepsCharacters(name: string)
    ensures multiset(CleanFilename(name)) <= multiset(name)
  {
    var filtered := RemoveForbidden(name);
    var t := Strip(filtered);
    var c := CleanFilename(name);
    RemoveForbiddenSubMultiset(name);
    StripSubMultiset(filtered);
    SliceSubMultiset(t, c, 0);
  }

  /** Sanitising a sanitised name only strips the whitespace that truncation
      may have left at its end: the result is a prefix of the first result. */
  lemma CleanFilenameTwice(name: string)
    ensures CleanFilename(CleanFilename(name)) == Strip(CleanFilename(name))
    ensures CleanFilename(CleanFilename(name)) <= CleanFilename(name)
  {
    var u := CleanFilename(name);
    assert RemoveForbidden(u) == u;
    LeadingSpaceCountUnique(u, 0);
  }

  /** `clean_filename` is idempotent on a title exactly when the filtered and
      stripped title fits in 100 characters or its 100th character is not
      whitespace. */
  lemma CleanFilenameIdempotentIff(name: string)
    ensures var t := Strip(RemoveForbidden(name));
            CleanFilename(CleanFilename(name)) == CleanFilename(name)
            <==> (|t| <= MaxNameLength || !IsSpace(t[MaxNameLength - 1]))
  {
    var t := Strip(RemoveForbidden(name));
    var u := CleanFilename(name);
    CleanFilenameTwice(name);
    if u == [] || !IsSpace(u[|u| - 1]) {
      StripNoop(u);
    }
    if |t| > MaxNameLength {
      assert u[MaxNameLength - 1] == t[MaxNameLength - 1];
    }
  }

  /** A concrete title on which `clean_filename` is not idempotent: 99 letters,
      a space and one more letter. Truncation keeps the space at the end. */
  lemma CleanFilenameNotIdempotent()
    ensures var name := seq(99, _ => 'a') + " b";
            && CleanFilename(name) == seq(99, _ => 'a') + " "
            && CleanFilename(CleanFilename(name)) == seq(99, _ => 'a')
  {
    var a := seq(99, _ => 'a');
    var name := a + " b";
    assert |name| == 101 && name[0] == 'a' && name[100] == 'b';
    assert NoForbidden(name) by {
      forall i | 0 <= i < |name| ensures name[i] !in ForbiddenChars {
        if i < 99 { assert name[i] == a[i]; }
      }
    }
    assert RemoveForbidden(name) == name;
    StripNoop(name);
    var u := name[..MaxNameLength];
    assert u == a + " ";
    assert CleanFilename(name) == u;
    CleanFilenameTwice(name);
    assert AllSpace(u[99..]);
    assert u[..0] == [];
    StripUnique(u, 0, 99);
    assert u[0..99] == a;
  }
}
