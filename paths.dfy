/** The `System.IO.Path` operations the core uses, with Windows rules: both '\' and '/'
    separate directories, '\' is the one inserted, and a path is rooted when it starts
    with a separator or a drive letter and ':'. Paths are taken as already normalised
    full paths; `GetFullPath` normalisation ("..", ".", repeated separators) is not modelled. */
module Paths {
  import opened Common
  import opened Text

  const Sep: char := '\\'

  predicate IsSep(c: char) {
    c == '\\' || c == '/'
  }

  predicate IsAsciiLetter(c: char) {
    ('a' <= c <= 'z') || ('A' <= c <= 'Z')
  }

  /** `Path.IsPathRooted`. */
  predicate IsRooted(p: string) {
    (|p| >= 1 && IsSep(p[0])) || (|p| >= 2 && IsAsciiLetter(p[0]) && p[1] == ':')
  }

  /** `Path.Combine(a, b)`: a rooted `b` replaces `a`; otherwise one separator joins them. */
  function Combine(a: string, b: string): (r: string)
    ensures EndsWith(r, b)
    ensures b == "" ==> r == a
    ensures a != "" && b != "" && !IsRooted(b) ==> StartsWith(r, a) && |r| <= |a| + 1 + |b|
  {
    if b == "" then a
    else if a == "" then b
    else if IsRooted(b) then b
    else if IsSep(a[|a| - 1]) then a + b
    else a + [Sep] + b
  }

  /** `Path.Join(a, b)`: like Combine, but a rooted `b` is appended, not substituted. */
  function Join(a: string, b: string): (r: string)
    ensures StartsWith(r, a) && EndsWith(r, b)
    ensures |a| + |b| <= |r| <= |a| + 1 + |b|
  {
    if a == "" then b
    else if b == "" then a
    else if IsSep(a[|a| - 1]) || IsSep(b[0]) then a + b
    else a + [Sep] + b
  }

  /** Position just after the last separator of `p` (0 when there is none). */
  function NameStart(p: string): (k: nat)
    ensures k <= |p|
    ensures forall i :: k <= i < |p| ==> !IsSep(p[i])
    ensures k > 0 ==> IsSep(p[k - 1])
  {
    if p == [] then 0 else if IsSep(p[|p| - 1]) then |p| else NameStart(p[..|p| - 1])
  }

  /** `Path.GetFileName`: what follows the last separator. */
  function GetFileName(p: string): (r: string)
    ensures EndsWith(p, r)
    ensures forall i :: 0 <= i < |r| ==> !IsSep(r[i])
  {
    p[NameStart(p)..]
  }

  /** Position of the last '.' of `s`, if any. */
  function LastDot(s: string): (r: Option<nat>)
    ensures r.Some? ==> r.value < |s| && s[r.value] == '.' && forall j :: r.value < j < |s| ==> s[j] != '.'
    ensures r.None? ==> forall j :: 0 <= j < |s| ==> s[j] != '.'
  {
    if s == [] then None
    else if s[|s| - 1] == '.' then Some(|s| - 1)
    else LastDot(s[..|s| - 1])
  }

  /** `Path.GetExtension`: the file name from its last '.', or "" when there is no '.'
      or the '.' is the last character. */
  function GetExtension(p: string): (r: string)
    ensures r == "" || (|r| >= 2 && r[0] == '.' && EndsWith(GetFileName(p), r))
  {
    var name := GetFileName(p);
    match LastDot(name)
    case None => ""
    case Some(k) => if k == |name| - 1 then "" else name[k..]
  }

  /** The extension of PostgreSQL backup files, in lower case. */
  const BackupExtension: string := ".backup"

  /** A PostgreSQL backup file: its extension is ".backup" in any letter case. This is
      both the extension the site copy skips and what the "*.backup" search matches. */
  predicate IsBackup(f: string) {
    ToLower(GetExtension(f)) == BackupExtension
  }

  lemma IsBackupIgnoresCase(f: string)
    ensures IsBackup(f) <==> EqualsIgnoreCase(GetExtension(f), BackupExtension)
  {
    assert ToLower(BackupExtension) == BackupExtension;
    EqualsIgnoreCaseLowers(GetExtension(f), BackupExtension);
  }

  /** `Path.GetFileNameWithoutExtension`: the file name up to its last '.'. */
  function GetFileNameWithoutExtension(p: string): string {
    var name := GetFileName(p);
    match LastDot(name)
    case None => name
    case Some(k) => name[..k]
  }

  /** The file name is its stem followed by its extension, except for a name whose only
      '.' suffix is a trailing '.', which the stem drops and the extension does not keep. */
  lemma StemAndExtension(p: string)
    ensures GetExtension(p) != "" ==> GetFileNameWithoutExtension(p) + GetExtension(p) == GetFileName(p)
    ensures GetExtension(p) == "" && !EndsWithChar(GetFileName(p), '.') ==> GetFileNameWithoutExtension(p) == GetFileName(p)
  {
    var name := GetFileName(p);
    match LastDot(name)
    case None =>
    case Some(k) =>
      if k < |name| - 1 {
        assert name[..k] + name[k..] == name;
      }
  }

  /** A directory path with exactly one separator appended when it has none at its end. */
  function DirPrefix(d: string): (r: string)
    ensures StartsWith(r, d) && |r| > 0 && IsSep(r[|r| - 1])
  {
    if EndsWithChar(d, Sep) || EndsWithChar(d, '/') then d else d + [Sep]
  }

  /** `f` names something strictly inside directory `d` (at any depth). */
  predicate IsUnder(f: string, d: string) {
    |f| > |DirPrefix(d)| && StartsWith(f, DirPrefix(d))
  }

  /** The path of `f` relative to directory `d`. */
  function Relative(f: string, d: string): (r: string)
    requires IsUnder(f, d)
    ensures DirPrefix(d) + r == f && r != ""
  {
    f[|DirPrefix(d)|..]
  }

  /** Neither directory lies inside the other, nor are they the same. */
  predicate Apart(d1: string, d2: string) {
    !StartsWith(DirPrefix(d1), DirPrefix(d2)) && !StartsWith(DirPrefix(d2), DirPrefix(d1))
  }

  /** Nothing is inside two directories that are apart. */
  lemma ApartNotUnder(f: string, d1: string, d2: string)
    requires Apart(d1, d2) && IsUnder(f, d2)
    ensures !IsUnder(f, d1)
  {
    var p1, p2 := DirPrefix(d1), DirPrefix(d2);
    assert f[..|p2|] == p2;
    if |p1| <= |p2| {
      assert p2[..|p1|] == f[..|p1|];
    } else {
      var head1, head := p1[..|p2|], f[..|p2|];
      assert IsUnder(f, d1) ==> head1 == head;
    }
  }

  /** One path under `d` per relative path. */
  lemma RelativeInjective(f: string, g: string, d: string)
    requires IsUnder(f, d) && IsUnder(g, d)
    requires Relative(f, d) == Relative(g, d)
    ensures f == g
  {
    assert f == DirPrefix(d) + Relative(f, d);
  }
}
