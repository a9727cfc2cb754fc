/**
 The three functions of Python's `posixpath` module that the pipeline uses to
 derive file names: `join` with two components, `basename` and the root half of
 `splitext`. Paths are plain strings and `/` is the only separator.
 */
module PosixPath {

  const Sep: char := '/'
  const ExtSep: char := '.'

  /** The index of the last occurrence of `c` in `s`, or -1 when there is none
      (Python's `str.rfind` for a single character). */
  function LastIndexOf(s: string, c: char): (r: int)
    ensures -1 <= r < |s|
    ensures r >= 0 ==> s[r] == c
    ensures forall i :: r < i < |s| ==> s[i] != c
  {
    if |s| == 0 then -1
    else if s[|s| - 1] == c then |s| - 1
    else LastIndexOf(s[..|s| - 1], c)
  }

  /** `os.path.join(a, b)`: an absolute `b` replaces `a`; otherwise `b` is
      appended to `a`, with one separator in between unless `a` is empty or
      already ends with a separator. */
  function Join(a: string, b: string): (r: string)
    ensures |b| > 0 && b[0] == Sep ==> r == b
    ensures |r| >= |b| && r[|r| - |b|..] == b
    ensures !(|b| > 0 && b[0] == Sep) ==> a <= r
    ensures !(|b| > 0 && b[0] == Sep) && a != [] ==> |r| > |b| && r[|r| - |b| - 1] == Sep
    ensures !(|b| > 0 && b[0] == Sep) && (a == [] || a[|a| - 1] == Sep) ==> |r| == |a| + |b|
    ensures !(|b| > 0 && b[0] == Sep) && a != [] && a[|a| - 1] != Sep ==> |r| == |a| + |b| + 1
  {
    if |b| > 0 && b[0] == Sep then b
    else if a == [] || a[|a| - 1] == Sep then a + b
    else a + [Sep] + b
  }

  /** `os.path.basename(p)`: everything after the last separator. The result
      is the longest separator-free suffix of `p`. */
  function Basename(p: string): (r: string)
    ensures |r| <= |p| && r == p[|p| - |r|..]
    ensures Sep !in r
    ensures |r| == |p| || p[|p| - |r| - 1] == Sep
  {
    p[LastIndexOf(p, Sep) + 1..]
  }

  /** True when `s` consists of dots only (also for the empty string). */
  predicate AllDots(s: string) {
    |s| == 0 || (s[0] == ExtSep && AllDots(s[1..]))
  }

  /** The root half of `os.path.splitext(p)`: `p` without its extension. The
      extension starts at the last dot of the last path component, but only
      when some character other than a dot precedes that dot in the component,
      so `.bashrc` and `..` have no extension. */
  function SplitExtRoot(p: string): (r: string)
    ensures r <= p
    ensures r != p ==> p[|r|] == ExtSep
    ensures r != p ==> forall i :: |r| < i < |p| ==> p[i] != ExtSep && p[i] != Sep
    ensures r != p ==> LastIndexOf(p, Sep) < |r| && !AllDots(p[LastIndexOf(p, Sep) + 1..|r|])
  {
    var sep := LastIndexOf(p, Sep);
    var dot := LastIndexOf(p, ExtSep);
    if dot > sep && !AllDots(p[sep + 1..dot]) then
      var r := p[..dot];
      assert |r| == dot && p[dot] == ExtSep;
      r
    else
      p
  }

  /** Joining a relative name onto a directory that does not end with a
      separator puts exactly one separator between them. */
  lemma JoinRelative(a: string, b: string)
    requires a != [] && a[|a| - 1] != Sep
    requires b == [] || b[0] != Sep
    ensures Join(a, b) == a + [Sep] + b
  {
  }

  /** Joining a separator-free name onto a directory and taking the basename
      gives the name back. */
  lemma BasenameOfJoin(a: string, b: string)
    requires Sep !in b
    ensures Basename(Join(a, b)) == b
  {
    var p := Join(a, b);
    var k := |p| - |b|;
    var r := LastIndexOf(p, Sep);
    assert p[k..] == b;
    if k > 0 {
      assert p[k - 1] == Sep;
    }
    assert r < k;
    assert r == k - 1;
  }

  /** A file name `stem.ext` whose extension holds neither a dot nor a
      separator splits back into `stem`, unless the stem is dots only (the
      empty stem included): then the name has no extension. */
  lemma SplitExtRootOfName(stem: string, ext: string)
    requires Sep !in stem
    requires Sep !in ext && ExtSep !in ext
    ensures SplitExtRoot(stem + [ExtSep] + ext)
            == if AllDots(stem) then stem + [ExtSep] + ext else stem
  {
    var p := stem + [ExtSep] + ext;
    var dot := LastIndexOf(p, ExtSep);
    var sep := LastIndexOf(p, Sep);
    assert p[|stem|] == ExtSep;
    assert dot == |stem|;
    assert sep == -1;
    assert p[sep + 1..dot] == stem;
  }
}
