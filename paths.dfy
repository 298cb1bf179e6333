/**
 * `os.path.splitext` as POSIX Python implements it: the extension is the
 * text from the last '.' of the final path component, unless that component
 * consists only of dots up to that point (so ".bashrc" has no extension).
 */
module Paths {

  /** The index of the last `c` in `p`, or -1 when there is none (`str.rfind`). */
  function RFind(p: string, c: char): (r: int)
    ensures -1 <= r < |p|
    ensures r >= 0 ==> p[r] == c
    ensures forall k :: r < k < |p| ==> p[k] != c
    decreases |p|
  {
    if p == [] then -1
    else if p[|p| - 1] == c then |p| - 1
    else RFind(p[..|p| - 1], c)
  }

  /** Some character of the final path component of `p`, before position `end`, is not a dot. */
  predicate NamedComponent(p: string, end: int)
  {
    exists k :: RFind(p, '/') < k < end && 0 <= k < |p| && p[k] != '.'
  }

  /** `(root, ext)` with `root + ext == p`; `ext` is empty or one dot followed by neither dots nor slashes. */
  function SplitExt(p: string): (r: (string, string))
    ensures r.0 + r.1 == p
    ensures r.1 != [] ==> r.1[0] == '.' && forall k :: 1 <= k < |r.1| ==> r.1[k] != '.' && r.1[k] != '/'
    ensures r.1 != [] ==> NamedComponent(r.0, |r.0|)
  {
    var sepIndex := RFind(p, '/');
    var dotIndex := RFind(p, '.');
    if dotIndex > sepIndex && NamedComponent(p, dotIndex) then
      var root := p[..dotIndex];
      assert RFind(root, '/') == sepIndex by { RFindUnique(root, '/', sepIndex); }
      assert p[dotIndex..][0] == '.';
      (root, p[dotIndex..])
    else
      (p, "")
  }

  /** `RFind` is the only index with its three properties. */
  lemma RFindUnique(p: string, c: char, r: int)
    requires -1 <= r < |p|
    requires r >= 0 ==> p[r] == c
    requires forall k :: r < k < |p| ==> p[k] != c
    ensures RFind(p, c) == r
  {
  }

  /**
   * Splitting is undone by appending: a name whose final component is named
   * and an extension of one dot and no further dots or slashes split back
   * into exactly those two parts.
   */
  lemma SplitExtOfAppend(root: string, ext: string)
    requires |ext| > 0 && ext[0] == '.'
    requires forall k :: 1 <= k < |ext| ==> ext[k] != '.' && ext[k] != '/'
    requires NamedComponent(root, |root|)
    ensures SplitExt(root + ext) == (root, ext)
  {
    var p := root + ext;
    var sepIndex := RFind(root, '/');
    RFindUnique(p, '/', sepIndex);
    RFindUnique(p, '.', |root|);
    var k :| RFind(root, '/') < k < |root| && 0 <= k < |root| && root[k] != '.';
    assert p[k] == root[k];
    assert NamedComponent(p, |root|);
    assert p[..|root|] == root && p[|root|..] == ext;
  }
}
