/** The parts of .NET's `Path` and `string` helpers the tool depends on:
    `Path.GetFileName`, `Path.GetFileNameWithoutExtension` and
    `string.IsNullOrWhiteSpace`. Which characters separate directories depends
    on the host, so the path functions take that rule as a parameter. */
module Paths {

  /** The host's directory-separator test: `'/'` alone on Unix, `'\\'` and `'/'` on Windows. */
  type SeparatorRule = char -> bool

  predicate NoSeparator(s: string, isSep: SeparatorRule) {
    forall i :: 0 <= i < |s| ==> !isSep(s[i])
  }

  /** `LastIndexOf`/`LastIndexOfAny`: the last position whose character satisfies `p`, or -1. */
  function LastIndexWhere(s: string, p: char -> bool): (i: int)
    ensures -1 <= i < |s|
    ensures 0 <= i ==> p(s[i])
    ensures forall j :: i < j < |s| ==> !p(s[j])
    decreases |s|
  {
    if s == [] then -1
    else if p(s[|s| - 1]) then |s| - 1
    else LastIndexWhere(s[..|s| - 1], p)
  }

  /** `Path.GetFileName`: what follows the last directory separator. */
  function FileName(path: string, isSep: SeparatorRule): (r: string)
    ensures |r| <= |path| && r == path[|path| - |r|..]
    ensures NoSeparator(r, isSep)
    ensures |r| == |path| || isSep(path[|path| - |r| - 1])
  {
    path[LastIndexWhere(path, isSep) + 1..]
  }

  /** The three facts FileName ensures pin its result down: a suffix without
      separators that is either the whole path or preceded by one. */
  lemma FileNameUnique(path: string, isSep: SeparatorRule, r: string)
    requires |r| <= |path| && r == path[|path| - |r|..]
    requires NoSeparator(r, isSep)
    requires |r| == |path| || isSep(path[|path| - |r| - 1])
    ensures FileName(path, isSep) == r
  {
  }

  /** A name without separators is its own file name, so GetFileName is idempotent. */
  lemma {:induction false} FileNameOfBareName(s: string, isSep: SeparatorRule)
    requires NoSeparator(s, isSep)
    ensures FileName(s, isSep) == s
  {
    FileNameUnique(s, isSep, s);
  }

  /** Whatever directory precedes it, a bare name is what GetFileName returns. */
  lemma FileNameAfterDirectory(dir: string, name: string, isSep: SeparatorRule)
    requires |dir| > 0 && isSep(dir[|dir| - 1])
    requires NoSeparator(name, isSep)
    ensures FileName(dir + name, isSep) == name
  {
    var path := dir + name;
    assert path[|path| - |name|..] == name;
    assert path[|path| - |name| - 1] == dir[|dir| - 1];
    FileNameUnique(path, isSep, name);
  }

  lemma FileNameIdempotent(path: string, isSep: SeparatorRule)
    ensures FileName(FileName(path, isSep), isSep) == FileName(path, isSep)
  {
    FileNameOfBareName(FileName(path, isSep), isSep);
  }

  /** Removes the extension: everything from the last '.' on, when there is one. */
  function WithoutExtension(name: string): (r: string)
    ensures |r| <= |name| && r == name[..|r|]
    ensures |r| == |name| ==> '.' !in name
    ensures |r| < |name| ==> name[|r|] == '.' && '.' !in name[|r| + 1..]
  {
    var dot := LastIndexWhere(name, c => c == '.');
    assert dot < 0 ==> forall j :: 0 <= j < |name| ==> name[j] != '.';
    if dot < 0 then name else name[..dot]
  }

  /** `Path.GetFileNameWithoutExtension`. */
  function FileNameWithoutExtension(path: string, isSep: SeparatorRule): (r: string)
    ensures NoSeparator(r, isSep)
    ensures |r| <= |FileName(path, isSep)|
  {
    WithoutExtension(FileName(path, isSep))
  }

  /** `char.IsWhiteSpace`: the members of Unicode categories Zs, Zl and Zp,
      plus U+0009 to U+000D, U+0085 and U+00A0. */
  predicate IsWhiteSpace(c: char) {
    ('\U{9}' <= c <= '\U{D}') || c == ' ' || c == '\U{85}' || c == '\U{A0}'
    || c == '\U{1680}' || ('\U{2000}' <= c <= '\U{200A}') || c == '\U{2028}' || c == '\U{2029}'
    || c == '\U{202F}' || c == '\U{205F}' || c == '\U{3000}'
  }

  /** `string.IsNullOrWhiteSpace` on a non-null string: empty, or white space only. */
  predicate IsBlank(s: string) {
    forall i :: 0 <= i < |s| ==> IsWhiteSpace(s[i])
  }
}
