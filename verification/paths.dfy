/** POSIX path manipulation as Python's `posixpath` does it: `join`,
    `splitext` and `isabs`, on paths held as plain strings. */
module Paths {
  import opened Strings

  /** `os.path.isabs(p)`: the path starts with the separator. */
  predicate IsAbs(p: string) {
    |p| > 0 && p[0] == '/'
  }

  /** `a` with exactly one trailing separator added unless it already ends in one. */
  function DirPrefix(a: string): string
    requires a != ""
  {
    if a[|a| - 1] == '/' then a else a + "/"
  }

  /** `os.path.join(a, b)` for two components: an absolute `b` discards `a`;
      otherwise a separator is inserted when `a` is non-empty and lacks one. */
  function Join(a: string, b: string): string {
    if IsAbs(b) then b
    else if a == "" || a[|a| - 1] == '/' then a + b
    else a + "/" + b
  }

  /** The joined path always ends with the second component; an absolute
      second component wins outright; a relative one is placed under `a`. */
  lemma JoinLaws(a: string, b: string)
    ensures EndsWith(Join(a, b), b)
    ensures IsAbs(b) ==> Join(a, b) == b
    ensures !IsAbs(b) && a != "" ==> Join(a, b) == DirPrefix(a) + b
    ensures !IsAbs(b) && a == "" ==> Join(a, b) == b
    ensures IsAbs(a) ==> IsAbs(Join(a, b))
  {
    var r := Join(a, b);
    assert r[|r| - |b|..] == b;
  }

  /** Past the last separator (the final component) there is a dot preceded by
      some non-dot character: when `splitext` finds an extension, since the
      component's leading dots do not count. */
  predicate HasExtension(p: string) {
    var sep := RFind(p, '/');
    exists i, d :: sep < i < d < |p| && p[i] != '.' && p[d] == '.'
  }

  /** Some character of `p[lo..hi]` is not a dot. */
  predicate HasNonDot(p: string, lo: int, hi: int)
    requires 0 <= lo <= hi <= |p|
  {
    exists i :: lo <= i < hi && p[i] != '.'
  }

  /** `os.path.splitext(p)`: split at the last dot of the final component,
      unless every character before that dot in the component is a dot. */
  function SplitExt(p: string): (string, string) {
    var sep := RFind(p, '/');
    var dot := RFind(p, '.');
    if dot > sep && HasNonDot(p, sep + 1, dot) then
      (p[..dot], p[dot..])
    else
      (p, "")
  }

  /** A final component with an extension has its last dot after the last
      separator, with a non-dot character before that dot. */
  lemma ExtensionIsFound(p: string)
    ensures HasExtension(p) ==> RFind(p, '.') > RFind(p, '/')
    ensures HasExtension(p) ==> HasNonDot(p, RFind(p, '/') + 1, RFind(p, '.'))
  {
    if HasExtension(p) {
      var sep := RFind(p, '/');
      var i, d :| sep < i < d < |p| && p[i] != '.' && p[d] == '.';
      assert sep + 1 <= i < RFind(p, '.');
    }
  }

  /** `splitext` loses nothing: root and extension concatenate back to the
      path; the extension is empty or one dot followed by no dot and no
      separator; and it is non-empty exactly when the final component has a
      dot after some non-dot character. */
  lemma SplitExtLaws(p: string)
    ensures SplitExt(p).0 + SplitExt(p).1 == p
    ensures var ext := SplitExt(p).1;
      ext == "" || (ext[0] == '.' && '.' !in ext[1..] && '/' !in ext)
    ensures SplitExt(p).1 != "" <==> HasExtension(p)
  {
    ExtensionIsFound(p);
    var sep := RFind(p, '/');
    var dot := RFind(p, '.');
    if dot > sep && HasNonDot(p, sep + 1, dot) {
      var i :| sep + 1 <= i < dot && p[i] != '.';
      assert sep < i < dot < |p| && p[i] != '.' && p[dot] == '.';
    }
  }

  /** The path without its extension. */
  function Stem(p: string): string {
    SplitExt(p).0
  }

  /** The extension, leading dot included, or "" when there is none. */
  function Ext(p: string): string {
    SplitExt(p).1
  }
}
