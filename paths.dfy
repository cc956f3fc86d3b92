/** POSIX path handling as `os.path` (`posixpath`) and `pathlib.PurePosixPath` do it,
    for the operations the ingestion worker and the PDF server use. */
module Paths {
  import opened Strings

  /** `os.path.basename`: everything after the last '/'. */
  function BaseName(p: string): (r: string)
    ensures |r| <= |p| && r == p[|p| - |r|..]
    ensures forall i :: 0 <= i < |r| ==> r[i] != '/'
  {
    p[LastIndexOf(p, '/') + 1..]
  }

  predicate AllSlashes(s: string) { forall i :: 0 <= i < |s| ==> s[i] == '/' }

  function RStripSlashes(s: string): (r: string)
    ensures |r| <= |s| && r == s[..|r|] && (r == [] || r[|r| - 1] != '/')
    ensures AllSlashes(s[|r|..])
  {
    if s != [] && s[|s| - 1] == '/' then
      var r := RStripSlashes(s[..|s| - 1]);
      assert s[|r|..] == s[..|s| - 1][|r|..] + [s[|s| - 1]];
      r
    else s
  }

  /** `os.path.dirname`: the head up to the last '/', with trailing slashes removed unless
      the head is slashes only. */
  function DirName(p: string): (r: string)
    ensures r <= p
  {
    var head := p[..LastIndexOf(p, '/') + 1];
    if head != [] && !AllSlashes(head) then RStripSlashes(head) else head
  }

  /** `os.path.join(a, b)` for two components. */
  function PathJoin(a: string, b: string): (r: string)
    ensures StartsWith(b, "/") ==> r == b
    ensures !StartsWith(b, "/") ==> EndsWith(r, b)
  {
    if StartsWith(b, "/") then b
    else if a == [] || EndsWith(a, "/") then a + b
    else a + "/" + b
  }

  /** `os.path.splitext(p)[0]`: the path without its extension, where the extension starts
      at the last '.' of the last component unless the component is dots up to there. */
  function StripExt(p: string): (r: string)
    ensures r <= p
  {
    var sep := LastIndexOf(p, '/');
    var dot := LastIndexOf(p, '.');
    if dot > sep && exists i :: sep + 1 <= i < dot && p[i] != '.' then p[..dot] else p
  }

  /** `PurePosixPath(p).name` for a path whose components are ordinary names. */
  function PathName(p: string): (r: string)
    ensures forall i :: 0 <= i < |r| ==> r[i] != '/'
  {
    BaseName(RStripSlashes(p))
  }

  /** Index where `PurePosixPath(name).suffix` starts, or `|name|` when there is none:
      the last '.', if it is neither the first nor the last character. */
  function SuffixStart(name: string): (i: nat)
    ensures i <= |name|
  {
    var d := LastIndexOf(name, '.');
    if 0 < d < |name| - 1 then d else |name|
  }

  /** `PurePosixPath(name).stem`. */
  function Stem(name: string): (r: string)
    ensures r <= name
  {
    name[..SuffixStart(name)]
  }
}
