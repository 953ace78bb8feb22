/**
 * The two System.IO.Path queries the drop handlers use to classify a dragged
 * file, as .NET implements them on Windows: the extension is the text from
 * the last '.' that comes after the last directory separator ('\' or '/'),
 * and a path whose last such '.' is its final character has none.
 */
module Paths {
  import opened Wrappers

  predicate IsSeparator(c: char)
  {
    c == '\\' || c == '/'
  }

  /** Some position in (k, i) of p holds a directory separator. */
  predicate SeparatorBetween(p: string, k: int, i: int)
    requires 0 <= k && i <= |p|
  {
    exists m :: k < m < i && IsSeparator(p[m])
  }

  /**
   * The backward scan of GetExtension over p[..i]: the position of the last
   * '.' with no separator after it, or None when a separator or the start
   * comes first.
   */
  function LastDot(p: string, i: nat): (r: Option<nat>)
    requires i <= |p|
    ensures r.Some? ==> r.value < i && p[r.value] == '.'
    ensures r.Some? ==> forall k :: r.value < k < i ==> p[k] != '.' && !IsSeparator(p[k])
    ensures r.None? ==> forall k :: 0 <= k < i && p[k] == '.' ==> SeparatorBetween(p, k, i)
  {
    if i == 0 then None
    else if p[i - 1] == '.' then Some(i - 1)
    else if IsSeparator(p[i - 1]) then
      assert forall k :: 0 <= k < i - 1 ==> SeparatorBetween(p, k, i) by {
        forall k | 0 <= k < i - 1 ensures SeparatorBetween(p, k, i) {
          assert k < i - 1 < i && IsSeparator(p[i - 1]);
        }
      }
      None
    else
      var r := LastDot(p, i - 1);
      assert r.None? ==> forall k :: 0 <= k < i && p[k] == '.' ==> SeparatorBetween(p, k, i) by {
        if r.None? {
          forall k | 0 <= k < i && p[k] == '.' ensures SeparatorBetween(p, k, i) {
            assert k < i - 1;
            assert SeparatorBetween(p, k, i - 1);
            var m :| k < m < i - 1 && IsSeparator(p[m]);
            assert k < m < i;
          }
        }
      }
      r
  }

  /** Path.GetExtension: the last '.' and what follows it, or "" when there is none or it ends the path. */
  function Extension(p: string): (e: string)
    ensures e == "" || (2 <= |e| <= |p| && e[0] == '.' && e == p[|p| - |e|..])
    ensures e != "" ==> forall k :: 1 <= k < |e| ==> e[k] != '.' && !IsSeparator(e[k])
  {
    match LastDot(p, |p|)
    case None => ""
    case Some(j) =>
      if j != |p| - 1 then
        assert forall k :: 1 <= k < |p| - j ==> p[j..][k] == p[j + k];
        p[j..]
      else ""
  }

  /** Path.HasExtension: the same scan, true when it finds a '.' that is not the last character. */
  function HasExtension(p: string): (b: bool)
    ensures b <==> Extension(p) != ""
  {
    match LastDot(p, |p|)
    case None => false
    case Some(j) => j != |p| - 1
  }

  /** An extension proper: a '.', then at least one character, none of them '.' or a separator. */
  predicate IsExtension(ext: string)
  {
    |ext| >= 2 && ext[0] == '.' && forall k :: 1 <= k < |ext| ==> ext[k] != '.' && !IsSeparator(ext[k])
  }

  /** For a proper extension, GetExtension(p) == ext is the same test as "p ends with ext". */
  lemma ExtensionIsSuffix(p: string, ext: string)
    requires IsExtension(ext)
    ensures Extension(p) == ext <==> |p| >= |ext| && p[|p| - |ext|..] == ext
  {
    if |p| >= |ext| && p[|p| - |ext|..] == ext {
      var j := |p| - |ext|;
      assert p[j] == '.';
      forall k | j < k < |p| ensures p[k] != '.' && !IsSeparator(p[k]) {
        assert p[k] == ext[k - j];
      }
      LastDotFinds(p, |p|, j);
    }
  }

  /** A '.' followed up to i by neither '.' nor a separator is where the scan stops. */
  lemma {:induction false} LastDotFinds(p: string, i: nat, j: nat)
    requires j < i <= |p| && p[j] == '.'
    requires forall k :: j < k < i ==> p[k] != '.' && !IsSeparator(p[k])
    ensures LastDot(p, i) == Some(j)
    decreases i
  {
    if i - 1 != j {
      LastDotFinds(p, i - 1, j);
    }
  }

  /** The last directory separator below i, or -1 when there is none. */
  function LastSeparator(p: string, i: nat): (r: int)
    requires i <= |p|
    ensures -1 <= r < i
    ensures r >= 0 ==> IsSeparator(p[r])
    ensures forall k :: r < k < i ==> !IsSeparator(p[k])
  {
    if i == 0 then -1
    else if IsSeparator(p[i - 1]) then i - 1
    else LastSeparator(p, i - 1)
  }

  /** Path.GetFileName: what follows the last directory separator. */
  function FileName(p: string): (f: string)
    ensures |f| <= |p| && f == p[|p| - |f|..]
    ensures forall k :: 0 <= k < |f| ==> !IsSeparator(f[k])
  {
    p[LastSeparator(p, |p|) + 1..]
  }

  /**
   * Path.GetFileNameWithoutExtension: the file name up to its last '.', or
   * all of it when it has none. A file name holds no separator, so the
   * extension scan finds exactly its last '.'.
   */
  function FileTitle(p: string): (t: string)
    ensures |t| <= |FileName(p)| && t == FileName(p)[..|t|]
  {
    var f := FileName(p);
    match LastDot(f, |f|)
    case None => f
    case Some(d) => f[..d]
  }

  /** The extension's '.' lies after the last separator. */
  lemma DotAfterSeparator(p: string)
    requires LastDot(p, |p|).Some?
    ensures LastSeparator(p, |p|) < LastDot(p, |p|).value
  {
    var j := LastDot(p, |p|).value;
    var s := LastSeparator(p, |p|);
    if s >= 0 {
      assert IsSeparator(p[s]) && !IsSeparator(p[j]);
      assert s != j;
      assert !(j < s < |p|);
    }
  }

  /**
   * A file title ends at the '.' the extension scan of the whole path finds,
   * when that '.' lies after the last separator.
   */
  lemma TitleEndsAt(p: string, s: int, j: nat)
    requires s == LastSeparator(p, |p|) && s < j && LastDot(p, |p|) == Some(j)
    ensures FileTitle(p) == p[s + 1..j]
  {
    DotOfName(p, s + 1, j);
    TitleOfName(p, s, j);
  }

  /** The scan over the suffix p[lo..] stops at the last '.' of p, shifted by lo. */
  lemma DotOfName(p: string, lo: nat, j: nat)
    requires lo <= j < |p| && p[j] == '.'
    requires forall k :: j < k < |p| ==> p[k] != '.' && !IsSeparator(p[k])
    ensures LastDot(p[lo..], |p| - lo) == Some(j - lo)
  {
    DotInSuffix(p, lo, j);
    LastDotFinds(p[lo..], |p| - lo, j - lo);
  }

  /** The title is the file name, p[s + 1..], cut at the '.' its scan finds. */
  lemma TitleOfName(p: string, s: int, j: nat)
    requires s == LastSeparator(p, |p|) && s < j <= |p|
    requires LastDot(p[s + 1..], |p| - (s + 1)) == Some(j - (s + 1))
    ensures FileTitle(p) == p[s + 1..j]
  {
    var f := p[s + 1..];
    assert FileName(p) == f;
    SliceOfSlice(p, s + 1, j);
  }

  /** A last '.' of p seen from inside the suffix p[lo..]. */
  lemma DotInSuffix(p: string, lo: nat, j: nat)
    requires lo <= j < |p| && p[j] == '.'
    requires forall k :: j < k < |p| ==> p[k] != '.' && !IsSeparator(p[k])
    ensures p[lo..][j - lo] == '.'
    ensures forall k :: j - lo < k < |p| - lo ==> p[lo..][k] != '.' && !IsSeparator(p[lo..][k])
  {
    var f := p[lo..];
    forall k | j - lo < k < |f| ensures f[k] != '.' && !IsSeparator(f[k]) {
      assert f[k] == p[lo + k];
    }
  }

  /** Cutting a suffix of p at d is cutting p at lo + d. */
  lemma SliceOfSlice(p: string, lo: nat, hi: nat)
    requires lo <= hi <= |p|
    ensures p[lo..][..hi - lo] == p[lo..hi]
  {
  }

  /** A path with an extension splits into its file title followed by that extension. */
  lemma TitleAndExtension(p: string)
    requires Extension(p) != ""
    ensures FileTitle(p) + Extension(p) == FileName(p)
  {
    var j := LastDot(p, |p|).value;
    var s := LastSeparator(p, |p|);
    DotAfterSeparator(p);
    TitleEndsAt(p, s, j);
    assert p[s + 1..j] + p[j..] == p[s + 1..];
  }
}
