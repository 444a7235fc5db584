/**
 * The extension rule of Node's POSIX `path.extname`, which the server uses
 * to give a stored upload the extension of the client's file name and to
 * validate that extension.
 */
module Paths {
  import opened Wrappers
  import opened Strings

  /** `s` without the run of '/' characters at its end. */
  function TrimTrailingSlashes(s: string): (r: string)
    ensures StartsWith(s, r)
    ensures r == [] || r[|r| - 1] != '/'
    ensures forall i :: |r| <= i < |s| ==> s[i] == '/'
    decreases |s|
  {
    if s != [] && s[|s| - 1] == '/' then TrimTrailingSlashes(s[..|s| - 1]) else s
  }

  /** The part of `s` after its last '/', or all of `s` when it has none. */
  function LastSegment(s: string): (r: string)
    ensures '/' !in r
    ensures EndsWith(s, r)
    ensures r == s || s[|s| - |r| - 1] == '/'
  {
    match LastIndexOf(s, '/')
    case None => s
    case Some(k) => s[k + 1..]
  }

  /**
   * The extension of one path segment: from its last '.' to its end, except
   * that a segment with no '.' after its first character, and the segment
   * "..", have none.
   */
  function SegmentExtension(seg: string): (r: string)
    ensures r == [] <==> seg == [] || '.' !in seg[1..] || seg == ".."
    ensures r != [] ==> EndsWith(seg, r) && r[0] == '.' && '.' !in r[1..]
  {
    match LastIndexOf(seg, '.')
    case None => ""
    case Some(k) =>
      assert k > 0 ==> seg[1..][k - 1] == '.';
      assert '.' in seg[1..] ==> k > 0;
      if k == 0 || seg == ".." then "" else seg[k..]
  }

  /**
   * `path.extname(p)`: the extension of the last segment of `p` once
   * trailing slashes are ignored. It is empty exactly when that segment is
   * empty, is "..", or has no '.' after its first character; otherwise it
   * is a '.' followed by characters that are neither '.' nor '/', ending
   * the segment, which pins it to the segment's suffix from its last '.'.
   */
  function Extname(p: string): (r: string)
    ensures r == [] || (r[0] == '.' && '.' !in r[1..])
    ensures '/' !in r
    ensures EndsWith(TrimTrailingSlashes(p), r)
    ensures var seg := LastSegment(TrimTrailingSlashes(p));
      && EndsWith(seg, r)
      && (r == [] <==> seg == [] || '.' !in seg[1..] || seg == "..")
  {
    var trimmed := TrimTrailingSlashes(p);
    var seg := LastSegment(trimmed);
    var r := SegmentExtension(seg);
    assert r != [] ==> trimmed[|trimmed| - |r|..] == seg[|seg| - |r|..];
    r
  }

  /** For a name with no '/', which is what a multipart upload carries, the extension is that of the whole name. */
  lemma ExtnameOfPlainName(name: string)
    requires '/' !in name
    ensures Extname(name) == SegmentExtension(name)
  {
    assert name != [] ==> name[|name| - 1] != '/';
    assert TrimTrailingSlashes(name) == name;
  }
}
