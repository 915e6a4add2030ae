/**
 * The POSIX path operations the loaders use to route files: `str.lower`,
 * `os.path.splitext` and `os.path.join`, with `/` as the only separator.
 */
module PosixPath {

  /** `str.lower` on one character (ASCII letters only). */
  function LowerChar(c: char): char {
    if 'A' <= c <= 'Z' then (c as int + 32) as char else c
  }

  /** `str.lower` on a string (ASCII letters only): one character for each character. */
  function Lower(s: string): (r: string)
    ensures |r| == |s|
  {
    seq(|s|, i requires 0 <= i < |s| => LowerChar(s[i]))
  }

  /**
   * What `Lower` does at each position: an upper-case letter becomes its
   * lower-case one, every other character is kept, and no upper-case
   * letter is left.
   */
  lemma LowerChars(s: string)
    ensures forall i :: 0 <= i < |s| && 'A' <= s[i] <= 'Z' ==> Lower(s)[i] as int == s[i] as int + 32
    ensures forall i :: 0 <= i < |s| && !('A' <= s[i] <= 'Z') ==> Lower(s)[i] == s[i]
    ensures forall i :: 0 <= i < |s| ==> !('A' <= Lower(s)[i] <= 'Z')
  {
  }

  /** Lower-casing twice is lower-casing once. */
  lemma LowerIdempotent(s: string)
    ensures Lower(Lower(s)) == Lower(s)
  {
  }

  /** `str.rfind` for one character: the last index holding `c`, or -1. */
  function RFind(s: string, c: char): (r: int)
    ensures -1 <= r < |s|
    ensures 0 <= r ==> s[r] == c
    ensures forall k :: r < k < |s| ==> s[k] != c
  {
    LastBelow(s, c, |s|)
  }

  /** The last index below `n` holding `c`, or -1. */
  function LastBelow(s: string, c: char, n: nat): (r: int)
    requires n <= |s|
    ensures -1 <= r < n
    ensures 0 <= r ==> s[r] == c
    ensures forall k :: r < k < n ==> s[k] != c
  {
    if n == 0 then -1
    else if s[n - 1] == c then n - 1
    else LastBelow(s, c, n - 1)
  }

  /** The last occurrence is the one with no occurrence after it. */
  lemma RFindAt(s: string, c: char, i: int)
    requires 0 <= i < |s| && s[i] == c
    requires forall k :: i < k < |s| ==> s[k] != c
    ensures RFind(s, c) == i
  {
  }

  /** No occurrence from `i` on puts the last occurrence before `i`. */
  lemma RFindBefore(s: string, c: char, i: int)
    requires 0 <= i <= |s|
    requires forall k :: i <= k < |s| ==> s[k] != c
    ensures RFind(s, c) < i
  {
  }

  /** Every character of `p` from `lo` up to (not including) `hi` is a dot. */
  predicate AllDots(p: string, lo: int, hi: int)
    requires 0 <= lo <= hi <= |p|
  {
    forall m :: lo <= m < hi ==> p[m] == '.'
  }

  /**
   * Where `os.path.splitext` cuts a path: at the last dot of the final path
   * component, unless only dots precede that dot in the component (a
   * leading-dot name such as ".pdf" has no extension); at the end otherwise.
   */
  function SplitIndex(p: string): (i: int)
    ensures 0 <= i <= |p|
    ensures i < |p| ==> p[i] == '.'
  {
    var sep := RFind(p, '/');
    var dot := RFind(p, '.');
    if dot > sep && !AllDots(p, sep + 1, dot) then dot else |p|
  }

  /** `os.path.splitext`: the root and the extension, which is empty or starts with a dot. */
  function Splitext(p: string): (r: (string, string))
    ensures r.0 + r.1 == p
    ensures r.1 == "" || r.1[0] == '.'
  {
    var i := SplitIndex(p);
    (p[..i], p[i..])
  }

  /** The second half of `os.path.splitext(p)`. */
  function Ext(p: string): string {
    Splitext(p).1
  }

  /**
   * Independent statement of where an extension starts: at a dot after
   * which no dot or separator follows, preceded in the same path component
   * by some character that is not a dot.
   */
  ghost predicate IsExtensionAt(p: string, i: int) {
    && 0 <= i < |p|
    && p[i] == '.'
    && (forall k :: i < k < |p| ==> p[k] != '.' && p[k] != '/')
    && (exists k :: 0 <= k < i && p[k] != '.' && p[k] != '/' && NoSeparatorBetween(p, k, i))
  }

  ghost predicate NoSeparatorBetween(p: string, lo: int, hi: int)
    requires 0 <= lo <= hi <= |p|
  {
    forall m :: lo < m < hi ==> p[m] != '/'
  }

  /** A dot where an extension starts is the dot `Splitext` splits at. */
  lemma ExtensionAtIsSplit(p: string, i: int)
    requires IsExtensionAt(p, i)
    ensures SplitIndex(p) == i
    ensures Ext(p) == p[i..]
  {
    var k :| 0 <= k < i && p[k] != '.' && p[k] != '/' && NoSeparatorBetween(p, k, i);
    RFindAt(p, '.', i);
    forall m | k <= m < |p|
      ensures p[m] != '/'
    {
      if m < i {
        assert m == k || k < m < i;
      }
    }
    RFindBefore(p, '/', k);
    assert !AllDots(p, RFind(p, '/') + 1, i);
  }

  /** Where `Splitext` does split, an extension starts there. */
  lemma SplitIsExtensionAt(p: string)
    requires SplitIndex(p) < |p|
    ensures IsExtensionAt(p, SplitIndex(p))
  {
    var sep := RFind(p, '/');
    var dot := RFind(p, '.');
    var k :| sep + 1 <= k < dot && p[k] != '.';
    assert p[k] != '/';
    assert NoSeparatorBetween(p, k, dot);
  }

  /** `Ext` agrees with the declarative description of an extension, both ways. */
  lemma ExtensionCharacterised(p: string)
    ensures Ext(p) != "" <==> exists i :: IsExtensionAt(p, i)
    ensures forall i :: IsExtensionAt(p, i) ==> Ext(p) == p[i..]
  {
    if SplitIndex(p) < |p| {
      SplitIsExtensionAt(p);
    }
    forall i | IsExtensionAt(p, i)
      ensures Ext(p) == p[i..]
    {
      ExtensionAtIsSplit(p, i);
    }
  }

  lemma LowerCharKeepsSeparators(c: char)
    ensures LowerChar(c) == '.' <==> c == '.'
    ensures LowerChar(c) == '/' <==> c == '/'
  {
  }

  lemma LowerIsExtensionAt(p: string, i: int)
    ensures IsExtensionAt(Lower(p), i) <==> IsExtensionAt(p, i)
  {
    var q := Lower(p);
    forall k | 0 <= k < |p|
      ensures (q[k] == '.' <==> p[k] == '.') && (q[k] == '/' <==> p[k] == '/')
    {
      LowerCharKeepsSeparators(p[k]);
    }
    if IsExtensionAt(p, i) {
      var k :| 0 <= k < i && p[k] != '.' && p[k] != '/' && NoSeparatorBetween(p, k, i);
      assert q[k] != '.' && q[k] != '/' && NoSeparatorBetween(q, k, i);
    }
    if IsExtensionAt(q, i) {
      var k :| 0 <= k < i && q[k] != '.' && q[k] != '/' && NoSeparatorBetween(q, k, i);
      assert p[k] != '.' && p[k] != '/' && NoSeparatorBetween(p, k, i);
    }
  }

  /**
   * Routing on the lower-cased path is routing on the lower-cased
   * extension: `splitext(path.lower())[1] == splitext(path)[1].lower()`.
   */
  lemma ExtOfLower(p: string)
    ensures Ext(Lower(p)) == Lower(Ext(p))
  {
    var q := Lower(p);
    if SplitIndex(p) < |p| {
      var i := SplitIndex(p);
      SplitIsExtensionAt(p);
      LowerIsExtensionAt(p, i);
      ExtensionAtIsSplit(q, i);
      assert q[i..] == Lower(p[i..]);
    }
    if SplitIndex(q) < |q| {
      var i := SplitIndex(q);
      SplitIsExtensionAt(q);
      LowerIsExtensionAt(p, i);
      ExtensionAtIsSplit(p, i);
      assert q[i..] == Lower(p[i..]);
    }
  }

  /**
   * `os.path.join(a, b)` on POSIX: an absolute name replaces the
   * directory; otherwise the name follows the directory with at most one
   * slash added between them.
   */
  function Join(a: string, b: string): (r: string)
    ensures |b| > 0 && b[0] == '/' ==> r == b
  {
    if |b| > 0 && b[0] == '/' then b
    else if a == "" || a[|a| - 1] == '/' then a + b
    else a + "/" + b
  }

  /**
   * The shape of a joined path: the name comes last; for a relative name
   * the directory comes first, and a non-empty directory is separated from
   * the name by a slash.
   */
  lemma JoinShape(a: string, b: string)
    ensures |b| <= |Join(a, b)| && Join(a, b)[|Join(a, b)| - |b|..] == b
    ensures !(|b| > 0 && b[0] == '/') ==> |a| <= |Join(a, b)| && Join(a, b)[..|a|] == a
    ensures !(|b| > 0 && b[0] == '/') && a != "" ==>
              |a| + |b| <= |Join(a, b)| && Join(a, b)[|Join(a, b)| - |b| - 1] == '/'
  {
    var r := Join(a, b);
    if |b| > 0 && b[0] == '/' {
      assert r == b;
    } else if a == "" || a[|a| - 1] == '/' {
      assert r == a + b;
    } else {
      assert r == a + "/" + b;
    }
  }

  /** What `Join` puts in front of its second argument. */
  function JoinPrefix(a: string, b: string): (pre: string)
    ensures Join(a, b) == pre + b
    ensures pre == "" || pre[|pre| - 1] == '/'
  {
    if |b| > 0 && b[0] == '/' then ""
    else if a == "" || a[|a| - 1] == '/' then a
    else a + "/"
  }

  lemma ExtensionAfterSeparator(pre: string, name: string, i: int)
    requires pre == "" || pre[|pre| - 1] == '/'
    requires '/' !in name
    ensures IsExtensionAt(pre + name, i) <==> (i >= |pre| && IsExtensionAt(name, i - |pre|))
  {
    var p := pre + name;
    var n := |pre|;
    if IsExtensionAt(p, i) {
      var k :| 0 <= k < i && p[k] != '.' && p[k] != '/' && NoSeparatorBetween(p, k, i);
      if n > 0 {
        assert p[n - 1] == '/';
      }
      assert n <= i;
      assert n <= k;
      assert name[k - n] == p[k];
      assert NoSeparatorBetween(name, k - n, i - n);
      assert name[i - n] == '.';
      assert forall j :: i - n < j < |name| ==> name[j] == p[j + n];
      assert IsExtensionAt(name, i - n);
    }
    if i >= n && IsExtensionAt(name, i - n) {
      var k :| 0 <= k < i - n && name[k] != '.' && name[k] != '/' && NoSeparatorBetween(name, k, i - n);
      assert p[k + n] == name[k];
      assert NoSeparatorBetween(p, k + n, i);
      assert IsExtensionAt(p, i);
    }
  }

  /** An extension of the entry name is an extension of the joined path, shifted by the prefix. */
  lemma SplitAfterSeparator(pre: string, name: string)
    requires pre == "" || pre[|pre| - 1] == '/'
    requires '/' !in name
    ensures SplitIndex(name) < |name| ==> SplitIndex(pre + name) == SplitIndex(name) + |pre|
  {
    if SplitIndex(name) < |name| {
      var j := SplitIndex(name);
      SplitIsExtensionAt(name);
      ExtensionAfterSeparator(pre, name, j + |pre|);
      ExtensionAtIsSplit(pre + name, j + |pre|);
    }
  }

  /** An extension of the joined path lies inside the entry name. */
  lemma SplitBeforeSeparator(pre: string, name: string)
    requires pre == "" || pre[|pre| - 1] == '/'
    requires '/' !in name
    ensures SplitIndex(pre + name) < |pre + name| ==>
              |pre| <= SplitIndex(pre + name) && SplitIndex(name) == SplitIndex(pre + name) - |pre|
  {
    var p := pre + name;
    if SplitIndex(p) < |p| {
      var i := SplitIndex(p);
      SplitIsExtensionAt(p);
      ExtensionAfterSeparator(pre, name, i);
      ExtensionAtIsSplit(name, i - |pre|);
    }
  }

  lemma ExtAfterSeparator(pre: string, name: string)
    requires pre == "" || pre[|pre| - 1] == '/'
    requires '/' !in name
    ensures Ext(pre + name) == Ext(name)
  {
    SplitAfterSeparator(pre, name);
    SplitBeforeSeparator(pre, name);
    var i := SplitIndex(pre + name);
    if i < |pre + name| {
      assert (pre + name)[i..] == name[i - |pre|..];
    }
  }

  /**
   * A directory entry keeps its extension once joined to its directory:
   * for a name without a separator, `splitext(join(d, name))[1] ==
   * splitext(name)[1]`.
   */
  lemma ExtOfJoin(dir: string, name: string)
    requires '/' !in name
    ensures Ext(Join(dir, name)) == Ext(name)
  {
    ExtAfterSeparator(JoinPrefix(dir, name), name);
  }

  /** The same, after lower-casing, as the directory loaders compare it. */
  lemma JoinedNameKeepsExtension(dir: string, name: string)
    requires '/' !in name
    ensures Ext(Lower(Join(dir, name))) == Ext(Lower(name))
  {
    ExtOfLower(Join(dir, name));
    ExtOfLower(name);
    ExtOfJoin(dir, name);
  }
}
